/** The tiler (tiles.py): a list of co-registered one-band rasters is cut into
    square tiles, each tile stacking the same window of every source as one
    band, optionally with a paired mask tile cut from a rasterized vector
    layer. */
module Tiles {
  import opened Wrappers
  import opened Text
  import opened Disk
  import Paths

  /** The trigonometric functions `math.sin` and `math.cos`, supplied by the
      caller; only their values at the rotation terms are used. */
  datatype Trig = Trig(sin: real -> real, cos: real -> real)

  /** The exceptions the tiler raises, explicitly or through Python itself. */
  datatype Error =
    | CannotOpenRaster(path: string)     // explicit raise (tiles.py:28, 137)
    | NoneDataset(path: string)          // a dataset gdal.Open returned None for is used (tiles.py:99, 102)
    | NoneArray                          // `.shape` of a None first window (tiles.py:106)
    | BandIsNone                         // tiles.py:111
    | NoSources                          // an empty source list is indexed (tiles.py:48, 98)
    | NoSize                             // `self.size` is None (tiles.py:52)
    | ZeroTileSize                       // division by a zero tile size (tiles.py:52)
    | OutputFolderMissing(path: string)  // tiles.py:44
    | MaskFolderMissing(path: string)    // tiles.py:47, which names the output folder
    | FullMaskUnbound                    // `full_mask_path` was never assigned (tiles.py:77, 80)

  // ---------------------------------------------------------------------------
  // Georeferencing of a tile (tiles.py:85-91)
  // ---------------------------------------------------------------------------

  /** The ground point of pixel corner (col, row) under GDAL's affine map. */
  function GeoPoint(gt: GeoTransform, col: real, row: real): (real, real) {
    (gt.originX + col * gt.pixelWidth + row * gt.rowRotation,
     gt.originY + col * gt.columnRotation + row * gt.pixelHeight)
  }

  /** tiles.py:85-91: moves the origin to pixel (xMin, yMin); the code reads
      the two rotation terms as angles. */
  function TileGeoTransform(gt: GeoTransform, xMin: int, yMin: int, trig: Trig): (r: GeoTransform)
    ensures r.(originX := gt.originX, originY := gt.originY) == gt
  {
    var dx := gt.pixelWidth * trig.cos(gt.rowRotation) * xMin as real
      + gt.pixelHeight * trig.sin(gt.columnRotation) * yMin as real;
    var dy := gt.pixelWidth * trig.sin(gt.rowRotation) * xMin as real
      + gt.pixelHeight * trig.cos(gt.columnRotation) * yMin as real;
    gt.(originX := gt.originX + dx, originY := gt.originY + dy)
  }

  /** For a north-up raster the tile's pixel (col, row) lies where the source's
      pixel (xMin + col, yMin + row) lies, so tiles stay in place on the map. */
  lemma TileGeoTransformAligned(gt: GeoTransform, xMin: int, yMin: int, trig: Trig)
    requires gt.rowRotation == 0.0 && gt.columnRotation == 0.0
    requires trig.sin(0.0) == 0.0 && trig.cos(0.0) == 1.0
    ensures forall col: real, row: real ::
      GeoPoint(TileGeoTransform(gt, xMin, yMin, trig), col, row)
        == GeoPoint(gt, xMin as real + col, yMin as real + row)
  {
    var t := TileGeoTransform(gt, xMin, yMin, trig);
    assert t.originX == gt.originX + xMin as real * gt.pixelWidth;
    assert t.originY == gt.originY + yMin as real * gt.pixelHeight;
    forall col: real, row: real
      ensures GeoPoint(t, col, row) == GeoPoint(gt, xMin as real + col, yMin as real + row)
    {
      assert GeoPoint(t, col, row).0 == GeoPoint(gt, xMin as real + col, yMin as real + row).0;
      assert GeoPoint(t, col, row).1 == GeoPoint(gt, xMin as real + col, yMin as real + row).1;
      assert (xMin as real + col) * gt.pixelWidth == xMin as real * gt.pixelWidth + col * gt.pixelWidth;
      assert (yMin as real + row) * gt.pixelHeight == yMin as real * gt.pixelHeight + row * gt.pixelHeight;
      assert row * t.rowRotation == 0.0 == (yMin as real + row) * gt.rowRotation;
      assert col * t.columnRotation == 0.0 == (xMin as real + col) * gt.columnRotation;
    }
  }

  /** A 10 m UTM grid: the tile at pixel (256, 512) starts 2560 m east and
      5120 m south of the source origin. */
  lemma TileGeoTransformExample(trig: Trig)
    requires trig.sin(0.0) == 0.0 && trig.cos(0.0) == 1.0
    ensures var gt := GeoTransform(500000.0, 10.0, 0.0, 6000000.0, 0.0, -10.0);
      TileGeoTransform(gt, 256, 512, trig)
        == GeoTransform(502560.0, 10.0, 0.0, 5994880.0, 0.0, -10.0)
  {
  }

  // ---------------------------------------------------------------------------
  // Reading one window (tiles.py:97-112)
  // ---------------------------------------------------------------------------

  function Min(a: int, b: int): int {
    if a <= b then a else b
  }

  /** tiles.py:99: the columns read, clipped at the right edge. */
  function XBlockSize(width: nat, x: int, ts: int): int {
    Min(ts, width - x)
  }

  /** tiles.py:100: the rows read, clipped against the WIDTH, as written. */
  function YBlockSize(width: nat, y: int, ts: int): int {
    Min(ts, width - y)
  }

  /** Inside the tile grid of a raster a window is a full tile across; down
      it is a full tile only while the window also fits inside the width, it
      has no rows when it starts at the width, and a negative height when it
      starts below it. */
  lemma BlockSizes(width: nat, height: nat, ts: int, xTile: nat, yTile: nat)
    requires ts > 0 && xTile < width / ts
    ensures XBlockSize(width, xTile * ts, ts) == ts
    ensures YBlockSize(width, yTile * ts, ts) <= ts
    ensures (yTile + 1) * ts <= width ==> YBlockSize(width, yTile * ts, ts) == ts
    ensures yTile * ts == width ==> YBlockSize(width, yTile * ts, ts) == 0
    ensures yTile * ts > width ==> YBlockSize(width, yTile * ts, ts) < 0
  {
    assert (xTile + 1) * ts <= width by {
      assert xTile + 1 <= width / ts;
      assert (xTile + 1) * ts <= (width / ts) * ts;
    }
  }

  /** `band.ReadAsArray(x, y, xs, ys)` of the first band: an array of `ys`
      rows of `xs` pixels. GDAL skips a read of a window with a zero
      dimension, wherever it lies, and NumPy hands back an empty array; a
      negative size is refused; a window that does not lie inside the raster
      reads nothing (`None`). */
  function ReadWindow(r: Raster, x: int, y: int, xs: int, ys: int): (g: Option<Grid>)
    ensures g.Some? <==>
      |r.bands| > 0 && IsGrid(r.bands[0].data, r.width, r.height) && 0 <= xs && 0 <= ys &&
      (xs == 0 || ys == 0 || (0 <= x && 0 <= y && x + xs <= r.width && y + ys <= r.height))
    ensures g.Some? ==> IsGrid(g.value, xs, ys)
    ensures g.Some? && xs > 0 && ys > 0 ==> forall i, j :: 0 <= i < ys && 0 <= j < xs ==>
      g.value[i][j] == r.bands[0].data[y + i][x + j]
  {
    if |r.bands| == 0 || !IsGrid(r.bands[0].data, r.width, r.height) || xs < 0 || ys < 0 then None
    else if xs == 0 || ys == 0 then Some(Zeros(xs, ys))
    else if 0 <= x && 0 <= y && x + xs <= r.width && y + ys <= r.height
    then Some(seq(ys, i requires 0 <= i < ys =>
      seq(xs, j requires 0 <= j < xs => r.bands[0].data[y + i][x + j])))
    else None
  }

  /** `(band_array == 0).all()` */
  predicate AllZero(g: Grid) {
    forall i, j :: 0 <= i < |g| && 0 <= j < |g[i]| ==> g[i][j] == 0
  }

  /** A band of `width` by `height` zeros, as `Create` initialises it. */
  function Zeros(width: nat, height: nat): (g: Grid)
    ensures IsGrid(g, width, height) && AllZero(g)
  {
    seq(height, _ => seq(width, _ => 0))
  }

  /** The index of the first `None` at or after `i`. */
  function FirstNone<T>(s: seq<Option<T>>, i: nat): (k: Option<nat>)
    requires i <= |s|
    ensures k.Some? ==> (i <= k.value < |s| && s[k.value].None? &&
      forall j :: i <= j < k.value ==> s[j].Some?)
    ensures k.None? ==> forall j :: i <= j < |s| ==> s[j].Some?
    decreases |s| - i
  {
    if i == |s| then None else if s[i].None? then Some(i) else FirstNone(s, i + 1)
  }

  /** `[gdal.Open(input) for input in input_list]` (tiles.py:97) */
  function OpenAll(entries: Entries, inputs: seq<string>): (datasets: seq<Option<Raster>>)
    ensures |datasets| == |inputs|
    ensures forall i :: 0 <= i < |inputs| ==> datasets[i] == Open(entries, inputs[i])
  {
    seq(|inputs|, i requires 0 <= i < |inputs| => Open(entries, inputs[i]))
  }

  /** Windows of one size of which one is not all zero have pixels: the size
      is not zero in either direction. */
  lemma NotAllZeroHasPixels(arrays: seq<Option<Grid>>, xs: int, ys: int)
    requires forall i :: 0 <= i < |arrays| ==> arrays[i].Some? && IsGrid(arrays[i].value, xs, ys)
    requires exists i :: 0 <= i < |arrays| && !AllZero(arrays[i].value)
    ensures xs > 0 && ys > 0 && |arrays| > 0 && |arrays[0].value| == ys && |arrays[0].value[0]| == xs
  {
    var k :| 0 <= k < |arrays| && !AllZero(arrays[k].value);
    var i, j :| 0 <= i < |arrays[k].value| && 0 <= j < |arrays[k].value[i]| && arrays[k].value[i][j] != 0;
  }

  /** The tile written for windows `arrays` of the sources, the first of which
      is `first` (tiles.py:106-125). */
  function Tile(first: Raster, arrays: seq<Option<Grid>>, x: int, y: int, trig: Trig): (t: Raster)
    requires |arrays| > 0 && forall i :: 0 <= i < |arrays| ==> arrays[i].Some?
    requires |arrays[0].value| > 0
  {
    Raster(|arrays[0].value[0]|, |arrays[0].value|,
      seq(|arrays|, i requires 0 <= i < |arrays| && arrays[i].Some? => Band(arrays[i].value, Some(0))),
      TileGeoTransform(first.geo, x, y, trig), first.projection, first.dataType)
  }

  /** `[ds.GetRasterBand(1).ReadAsArray(x, y, xs, ys) for ds in raster_list]`
      (tiles.py:102-104). */
  function Windows(datasets: seq<Option<Raster>>, x: int, y: int, xs: int, ys: int): (arrays: seq<Option<Grid>>)
    requires forall i :: 0 <= i < |datasets| ==> datasets[i].Some?
    ensures |arrays| == |datasets|
    ensures forall i :: 0 <= i < |arrays| ==> arrays[i] == ReadWindow(datasets[i].value, x, y, xs, ys)
  {
    seq(|datasets|, i requires 0 <= i < |datasets| => ReadWindow(datasets[i].value, x, y, xs, ys))
  }

  /** The windows `save_tile` reads: the block sizes come from the first
      dataset (tiles.py:98-104). */
  function SourceWindows(datasets: seq<Option<Raster>>, x: int, y: int, ts: int): (arrays: seq<Option<Grid>>)
    requires |datasets| > 0 && forall i :: 0 <= i < |datasets| ==> datasets[i].Some?
  {
    var first := datasets[0].value;
    Windows(datasets, x, y, XBlockSize(first.width, x, ts), YBlockSize(first.width, y, ts))
  }

  /** What `save_tile(inputs, x, y, ts, ...)` does, read off the opened
      datasets: an exception, `None` for the empty tile it skips, or the tile
      it writes (`TileOfShape` states what a tile holds). */
  function TileOf(inputs: seq<string>, datasets: seq<Option<Raster>>, x: int, y: int, ts: int, trig: Trig)
    : Result<Option<Raster>, Error>
    requires |datasets| == |inputs|
  {
    if inputs == [] then Err(NoSources)
    else match FirstNone(datasets, 0)
      case Some(k) => Err(NoneDataset(inputs[k]))
      case None =>
        var first := datasets[0].value;
        var arrays := SourceWindows(datasets, x, y, ts);
        if arrays[0].None? then Err(NoneArray)
        else if exists i :: 0 <= i < |arrays| && arrays[i].None? then Err(BandIsNone)
        else if forall i :: 0 <= i < |arrays| ==> AllZero(arrays[i].value) then Ok(None)
        else
          NotAllZeroHasPixels(arrays, XBlockSize(first.width, x, ts), YBlockSize(first.width, y, ts));
          Ok(Some(Tile(first, arrays, x, y, trig)))
  }

  /** Success needs every dataset; a tile is well formed, has one band per
      source holding that source's window with no-data 0, is at most a tile
      square and is not all zero. */
  lemma TileOfShape(inputs: seq<string>, datasets: seq<Option<Raster>>, x: int, y: int, ts: int, trig: Trig)
    requires |datasets| == |inputs|
    ensures var r := TileOf(inputs, datasets, x, y, ts, trig);
      r.Ok? ==> inputs != [] && forall i :: 0 <= i < |inputs| ==> datasets[i].Some?
    ensures var r := TileOf(inputs, datasets, x, y, ts, trig);
      r.Ok? && r.value.Some? ==>
        var t := r.value.value;
        var arrays := SourceWindows(datasets, x, y, ts);
        WellFormed(t) && |t.bands| == |inputs| &&
        0 < t.width <= ts && 0 < t.height <= ts &&
        (forall i :: 0 <= i < |t.bands| ==> arrays[i].Some? && t.bands[i] == Band(arrays[i].value, Some(0))) &&
        exists i :: 0 <= i < |t.bands| && !AllZero(t.bands[i].data)
  {
    var r := TileOf(inputs, datasets, x, y, ts, trig);
    if r.Ok? && r.value.Some? {
      var arrays := SourceWindows(datasets, x, y, ts);
      var t := r.value.value;
      assert forall i :: 0 <= i < |arrays| ==> t.bands[i].data == arrays[i].value;
    }
  }

  /** The outcome of `save_tile` on the current entries (tiles.py:95-128). */
  function TileResult(entries: Entries, inputs: seq<string>, x: int, y: int, ts: int, trig: Trig)
    : Result<Option<Raster>, Error>
  {
    TileOf(inputs, OpenAll(entries, inputs), x, y, ts, trig)
  }

  /** An empty source list raises; success needs every source to open. A tile
      stacks one band per source, is at most a tile square, and takes its
      georeferencing from the first source. */
  lemma TileResultShape(entries: Entries, inputs: seq<string>, x: int, y: int, ts: int, trig: Trig)
    ensures inputs == [] ==> TileResult(entries, inputs, x, y, ts, trig) == Err(NoSources)
    ensures var r := TileResult(entries, inputs, x, y, ts, trig);
      r.Ok? ==> inputs != [] && forall i :: 0 <= i < |inputs| ==> Open(entries, inputs[i]).Some?
    ensures var r := TileResult(entries, inputs, x, y, ts, trig);
      r.Ok? && r.value.Some? ==>
        var t := r.value.value;
        var first := Open(entries, inputs[0]).value;
        WellFormed(t) && |t.bands| == |inputs| &&
        0 < t.width <= ts && 0 < t.height <= ts &&
        t.geo == TileGeoTransform(first.geo, x, y, trig) &&
        t.projection == first.projection && t.dataType == first.dataType &&
        (forall i :: 0 <= i < |t.bands| ==> t.bands[i].noData == Some(0)) &&
        exists i :: 0 <= i < |t.bands| && !AllZero(t.bands[i].data)
  {
    TileOfShape(inputs, OpenAll(entries, inputs), x, y, ts, trig);
  }

  /** The tile's pixels are the sources' pixels: band i, pixel (row, col) of
      the tile is pixel (y + row, x + col) of source i's first band; an
      empty outcome means every source window is all zero. */
  lemma TileKeepsPixels(entries: Entries, inputs: seq<string>, x: int, y: int, ts: int, trig: Trig)
    ensures var r := TileResult(entries, inputs, x, y, ts, trig);
      r.Ok? && r.value.Some? ==>
        var t := r.value.value;
        forall i, row, col :: 0 <= i < |inputs| && 0 <= row < t.height && 0 <= col < t.width ==>
          var source := Open(entries, inputs[i]).value;
          |source.bands| > 0 && IsGrid(source.bands[0].data, source.width, source.height) &&
          0 <= y + row < source.height && 0 <= x + col < source.width &&
          t.bands[i].data[row][col] == source.bands[0].data[y + row][x + col]
    ensures var r := TileResult(entries, inputs, x, y, ts, trig);
      r == Ok(None) ==>
        var first := Open(entries, inputs[0]).value;
        forall i :: 0 <= i < |inputs| ==>
          var w := ReadWindow(Open(entries, inputs[i]).value, x, y,
            XBlockSize(first.width, x, ts), YBlockSize(first.width, y, ts));
          w.Some? && AllZero(w.value)
  {
  }

  /** `save_tile` fails exactly when there is no source, a source cannot be
      opened, or a source's window does not lie inside it. */
  lemma TileFailures(entries: Entries, inputs: seq<string>, x: int, y: int, ts: int, trig: Trig)
    requires inputs != [] && forall i :: 0 <= i < |inputs| ==> Open(entries, inputs[i]).Some?
    ensures var first := Open(entries, inputs[0]).value;
      var xs := XBlockSize(first.width, x, ts);
      var ys := YBlockSize(first.width, y, ts);
      TileResult(entries, inputs, x, y, ts, trig).Err? <==>
        exists i :: 0 <= i < |inputs| && ReadWindow(Open(entries, inputs[i]).value, x, y, xs, ys).None?
  {
  }

  /** A consequence of the width clamp (tiles.py:100): a window that starts
      below the first source's width has a negative height, so the read is
      refused and `save_tile` fails, even when the raster is tall enough to
      hold the window. */
  lemma TallRasterWindowFails(entries: Entries, inputs: seq<string>, x: int, y: int, ts: int, trig: Trig)
    requires inputs != [] && forall i :: 0 <= i < |inputs| ==> Open(entries, inputs[i]).Some?
    requires y > Open(entries, inputs[0]).value.width
    ensures TileResult(entries, inputs, x, y, ts, trig) == Err(NoneArray)
  {
  }

  /** The other consequence of the width clamp: a window that starts exactly
      at the first source's width has no rows, so every source reads an empty
      array, which counts as all zero, and `save_tile` skips the window, even
      when the raster holds pixels there. */
  lemma TallRasterWindowEmpty(entries: Entries, inputs: seq<string>, x: int, y: int, ts: int, trig: Trig)
    requires inputs != [] && forall i :: 0 <= i < |inputs| ==> Open(entries, inputs[i]).Some?
    requires forall i :: 0 <= i < |inputs| ==>
      var r := Open(entries, inputs[i]).value; |r.bands| > 0 && IsGrid(r.bands[0].data, r.width, r.height)
    requires ts >= 0 && x <= Open(entries, inputs[0]).value.width
    requires y == Open(entries, inputs[0]).value.width
    ensures TileResult(entries, inputs, x, y, ts, trig) == Ok(None)
  {
    var datasets := OpenAll(entries, inputs);
    var first := datasets[0].value;
    assert YBlockSize(first.width, y, ts) == 0;
    var arrays := SourceWindows(datasets, x, y, ts);
    assert forall i :: 0 <= i < |arrays| ==> arrays[i].Some? && AllZero(arrays[i].value);
  }

  /** tiles.py:95-128. Returns 0 after writing a tile, 1 for an empty one. */
  method SaveTile(fs: FileSystem, inputs: seq<string>, x: int, y: int, ts: int, outPath: string, trig: Trig)
      returns (r: Result<int, Error>)
    modifies fs
    ensures match TileResult(old(fs.entries), inputs, x, y, ts, trig)
      case Err(e) => r == Err(e) && fs.entries == old(fs.entries)
      case Ok(None) => r == Ok(1) && fs.entries == old(fs.entries)
      case Ok(Some(t)) => r == Ok(0) && fs.entries == old(fs.entries)[outPath := RasterFile(t)]
  {
    ghost var outcome := TileResult(fs.entries, inputs, x, y, ts, trig);
    var rasterList := OpenAll(fs.entries, inputs);
    assert outcome == TileOf(inputs, rasterList, x, y, ts, trig);
    if |rasterList| == 0 {
      return Err(NoSources);
    }
    if rasterList[0].None? {
      return Err(NoneDataset(inputs[0]));
    }
    var ds1 := rasterList[0].value;
    var xBlockSize := XBlockSize(ds1.width, x, ts);
    var yBlockSize := YBlockSize(ds1.width, y, ts);
    // the comprehension of tiles.py:102-104 fails at the first unopened dataset
    var unopened := FirstNone(rasterList, 0);
    if unopened.Some? {
      return Err(NoneDataset(inputs[unopened.value]));
    }
    var bandArrays := Windows(rasterList, x, y, xBlockSize, yBlockSize);
    if bandArrays[0].None? {
      return Err(NoneArray);
    }
    if exists i :: 0 <= i < |bandArrays| && bandArrays[i].None? {
      return Err(BandIsNone);
    }
    if forall i :: 0 <= i < |bandArrays| ==> AllZero(bandArrays[i].value) {
      return Ok(1);
    }
    NotAllZeroHasPixels(bandArrays, xBlockSize, yBlockSize);
    WriteTile(fs, ds1, bandArrays, x, y, trig, outPath);
    return Ok(0);
  }

  /** tiles.py:115-128 once every window was read: creates the output raster
      the size of the first window, sets its projection and geotransform, and
      writes window i as band i with no-data 0. */
  method WriteTile(fs: FileSystem, ds1: Raster, bandArrays: seq<Option<Grid>>, x: int, y: int, trig: Trig,
                   outPath: string)
    requires |bandArrays| > 0 && forall i :: 0 <= i < |bandArrays| ==> bandArrays[i].Some?
    requires |bandArrays[0].value| > 0
    modifies fs
    ensures fs.entries == old(fs.entries)[outPath := RasterFile(Tile(ds1, bandArrays, x, y, trig))]
  {
    var yRes := |bandArrays[0].value|;
    var xRes := |bandArrays[0].value[0]|;
    var dataType := ds1.dataType;
    var geotransform := TileGeoTransform(ds1.geo, x, y, trig);
    var outDs := Raster(xRes, yRes, seq(|bandArrays|, _ => Band(Zeros(xRes, yRes), None)),
      GeoTransform(0.0, 1.0, 0.0, 0.0, 0.0, 1.0), [], dataType);
    fs.entries := fs.entries[outPath := RasterFile(outDs)];
    outDs := outDs.(projection := ds1.projection);
    outDs := outDs.(geo := geotransform);
    for i := 0 to |bandArrays|
      invariant outDs.width == xRes && outDs.height == yRes && |outDs.bands| == |bandArrays|
      invariant outDs.geo == geotransform && outDs.projection == ds1.projection && outDs.dataType == dataType
      invariant forall j :: 0 <= j < i ==> outDs.bands[j] == Band(bandArrays[j].value, Some(0))
    {
      outDs := outDs.(bands := outDs.bands[i := Band(bandArrays[i].value, Some(0))]);
    }
    assert outDs == Tile(ds1, bandArrays, x, y, trig);
    fs.entries := fs.entries[outPath := RasterFile(outDs)];
  }

  // ---------------------------------------------------------------------------
  // The full-size mask (tiles.py:134-145)
  // ---------------------------------------------------------------------------

  /** The mask `rasterize_mask` writes for `source`: one band of the source's
      size holding the burnt values (`burn(row, col)`, 0 outside every
      feature), the source's georeferencing, data type code 2, no-data 0. */
  function MaskRaster(source: Raster, burn: (int, int) -> int): (m: Raster)
    ensures WellFormed(m) && |m.bands| == 1 && m.bands[0].noData == Some(0)
    ensures m.width == source.width && m.height == source.height
    ensures m.geo == source.geo && m.projection == source.projection && m.dataType == 2
  {
    Raster(source.width, source.height,
      [Band(seq(source.height, row => seq(source.width, col => burn(row, col))), Some(0))],
      source.geo, source.projection, 2)
  }

  /** tiles.py:134-145; the vector layer and its attribute column are folded
      into `burn`. */
  method RasterizeMask(fs: FileSystem, inRaster: string, outRaster: string, burn: (int, int) -> int)
      returns (error: Option<Error>)
    modifies fs
    ensures match Open(old(fs.entries), inRaster)
      case None => error == Some(CannotOpenRaster(inRaster)) && fs.entries == old(fs.entries)
      case Some(source) =>
        error.None? && fs.entries == old(fs.entries)[outRaster := RasterFile(MaskRaster(source, burn))]
  {
    var inDs := Open(fs.entries, inRaster);
    if inDs.None? {
      return Some(CannotOpenRaster(inRaster));
    }
    var source := inDs.value;
    var outDs := Raster(source.width, source.height, [Band(Zeros(source.width, source.height), None)],
      GeoTransform(0.0, 1.0, 0.0, 0.0, 0.0, 1.0), [], 2);
    fs.entries := fs.entries[outRaster := RasterFile(outDs)];
    outDs := outDs.(projection := source.projection, geo := source.geo);
    outDs := outDs.(bands := [outDs.bands[0].(noData := Some(0))]);
    outDs := outDs.(bands := [outDs.bands[0].(data :=
      seq(source.height, row => seq(source.width, col => burn(row, col))))]);
    fs.entries := fs.entries[outRaster := RasterFile(outDs)];
    return None;
  }

  // ---------------------------------------------------------------------------
  // The tile grid and the tile names (tiles.py:52-57)
  // ---------------------------------------------------------------------------

  /** `floor(size / tile_size)`: a negative tile size gives an empty range. */
  function Count(size: nat, ts: int): nat
    requires ts != 0
  {
    if ts > 0 then size / ts else 0
  }

  /** The windows of one grid row, left to right: (x_tile, y_tile) pairs. */
  function Row(yTile: nat, cols: nat): (r: seq<(nat, nat)>)
    ensures |r| == cols && forall i :: 0 <= i < cols ==> r[i] == (i, yTile)
  {
    seq(cols, i requires 0 <= i < cols => (i, yTile))
  }

  /** The order in which the two nested loops of tiles.py:52-53 visit the
      windows: row by row, each row left to right. */
  function RowMajor(rows: nat, cols: nat): seq<(nat, nat)> {
    if rows == 0 then [] else RowMajor(rows - 1, cols) + Row(rows - 1, cols)
  }

  /** The loops visit exactly the windows of the grid. */
  lemma {:induction false} RowMajorMembers(rows: nat, cols: nat, w: (nat, nat))
    ensures w in RowMajor(rows, cols) <==> w.0 < cols && w.1 < rows
  {
    if rows > 0 {
      RowMajorMembers(rows - 1, cols, w);
      assert w in RowMajor(rows, cols) <==> w in RowMajor(rows - 1, cols) || w in Row(rows - 1, cols);
    }
  }

  lemma DivModOf(k: int, d: int, q: int, r: int)
    requires d > 0 && 0 <= r < d && k == q * d + r
    ensures k / d == q && k % d == r
  {
    var q', r' := k / d, k % d;
    assert k == q' * d + r';
    if q > q' {
      assert (q - q') * d == q * d - q' * d;
      MulAtLeast(q - q', d);
      assert false;
    } else if q < q' {
      assert (q' - q) * d == q' * d - q * d;
      MulAtLeast(q' - q, d);
      assert false;
    }
  }

  lemma MulAtLeast(t: int, d: int)
    requires t >= 1 && d > 0
    ensures t * d >= d
  {
    assert t * d == (t - 1) * d + d;
  }

  /** The k-th window visited is (k % cols, k / cols), so each window is
      visited once and the loops visit rows * cols windows. */
  lemma {:induction false} RowMajorOrder(rows: nat, cols: nat)
    ensures |RowMajor(rows, cols)| == rows * cols
    ensures forall k :: 0 <= k < rows * cols ==> RowMajor(rows, cols)[k] == (k % cols, k / cols)
  {
    if rows > 0 {
      RowMajorOrder(rows - 1, cols);
      var before := RowMajor(rows - 1, cols);
      assert |before| == (rows - 1) * cols;
      forall k | 0 <= k < rows * cols
        ensures RowMajor(rows, cols)[k] == (k % cols, k / cols)
      {
        if k >= (rows - 1) * cols {
          DivModOf(k, cols, rows - 1, k - (rows - 1) * cols);
        }
      }
    }
  }

  /** A 612 by 612 raster cut into 256-pixel tiles gives a 2 by 2 grid; the
      remaining 100-pixel strips are not tiled. */
  lemma GridExample()
    ensures Count(612, 256) == 2
    ensures RowMajor(Count(612, 256), Count(612, 256)) == [(0, 0), (1, 0), (0, 1), (1, 1)]
  {
  }

  /** Each processed prefix of the loops is a prefix of the whole visit. */
  lemma {:induction false} RowMajorPrefix(rows: nat, cols: nat, yTile: nat, xTile: nat)
    requires yTile < rows && xTile <= cols
    ensures var done := RowMajor(yTile, cols) + Row(yTile, cols)[..xTile];
      |done| <= |RowMajor(rows, cols)| && RowMajor(rows, cols)[..|done|] == done
  {
    var done := RowMajor(yTile, cols) + Row(yTile, cols)[..xTile];
    if rows == yTile + 1 {
      assert RowMajor(rows, cols) == RowMajor(yTile, cols) + Row(yTile, cols);
    } else {
      RowMajorPrefix(rows - 1, cols, yTile, xTile);
      assert RowMajor(rows, cols) == RowMajor(rows - 1, cols) + Row(rows - 1, cols);
      assert RowMajor(rows, cols)[..|RowMajor(rows - 1, cols)|] == RowMajor(rows - 1, cols);
    }
  }

  /** tiles.py:56: `{name}_X{x_tile+1}_Y{y_tile+1}.tif`, numbered from 1. */
  function TileName(name: string, xTile: nat, yTile: nat): string {
    name + ("_X" + (NatToString(xTile + 1) + ("_Y" + (NatToString(yTile + 1) + ".tif"))))
  }

  /** Distinct windows get distinct tile names. */
  lemma TileNameInjective(name: string, a: nat, b: nat, c: nat, d: nat)
    requires TileName(name, a, b) == TileName(name, c, d)
    ensures a == c && b == d
  {
    var rest1 := "_Y" + (NatToString(b + 1) + ".tif");
    var rest2 := "_Y" + (NatToString(d + 1) + ".tif");
    CancelPrefix(name, "_X" + (NatToString(a + 1) + rest1), "_X" + (NatToString(c + 1) + rest2));
    CancelPrefix("_X", NatToString(a + 1) + rest1, NatToString(c + 1) + rest2);
    DigitRunUnique(NatToString(a + 1), rest1, NatToString(c + 1), rest2);
    NatToStringInjective(a + 1, c + 1);
    CancelPrefix("_Y", NatToString(b + 1) + ".tif", NatToString(d + 1) + ".tif");
    DigitRunUnique(NatToString(b + 1), ".tif", NatToString(d + 1), ".tif");
    NatToStringInjective(b + 1, d + 1);
  }

  // ---------------------------------------------------------------------------
  // One pass of the loop body (tiles.py:54-77)
  // ---------------------------------------------------------------------------

  /** What the loop body reads from one `save_tiles` call. `maskDir` is `Some`
      exactly when masking is on, that is when both a mask folder and a
      vector layer were given (tiles.py:45, 65, 79). */
  datatype Job = Job(outputDir: string, name: string, tileSize: int, maskDir: Option<string>, trig: Trig)

  /** The entries so far and the exception that stopped the run, if any. */
  datatype Run = Run(entries: Entries, error: Option<Error>)

  /** tiles.py:56-57 */
  function ImagePath(job: Job, w: (nat, nat)): string {
    Join(job.outputDir, TileName(job.name, w.0, w.1))
  }

  /** tiles.py:67 */
  function MaskPath(job: Job, w: (nat, nat)): string
    requires job.maskDir.Some?
  {
    Join(job.maskDir.value, TileName(job.name, w.0, w.1))
  }

  /** The loop body for window `w` (tiles.py:54-77): an existing tile is kept;
      otherwise the tile is cut, and when it is not empty its mask tile is cut
      from the full-size mask unless it already exists. */
  function Step(entries: Entries, sources: seq<string>, job: Job, fullMask: Option<string>, w: (nat, nat)): Run {
    var x := w.0 * job.tileSize;
    var y := w.1 * job.tileSize;
    var image := ImagePath(job, w);
    if image in entries then Run(entries, None)
    else match TileResult(entries, sources, x, y, job.tileSize, job.trig)
      case Err(e) => Run(entries, Some(e))
      case Ok(None) => Run(entries, None)
      case Ok(Some(tile)) =>
        var written := entries[image := RasterFile(tile)];
        if job.maskDir.None? || MaskPath(job, w) in written then Run(written, None)
        else if fullMask.None? then Run(written, Some(FullMaskUnbound))
        else match TileResult(written, [fullMask.value], x, y, job.tileSize, job.trig)
          case Err(e) => Run(written, Some(e))
          case Ok(None) => Run(written, None)
          case Ok(Some(mask)) => Run(written[MaskPath(job, w) := RasterFile(mask)], None)
  }

  /** The loop body run over the windows `ws` in order, stopping at the first
      exception. */
  function Walk(entries: Entries, sources: seq<string>, job: Job, fullMask: Option<string>, ws: seq<(nat, nat)>): Run {
    if ws == [] then Run(entries, None)
    else
      var before := Walk(entries, sources, job, fullMask, ws[..|ws| - 1]);
      if before.error.Some? then before
      else Step(before.entries, sources, job, fullMask, ws[|ws| - 1])
  }

  /** tiles.py:54-77 */
  method SaveWindow(fs: FileSystem, sources: seq<string>, job: Job, fullMask: Option<string>, xTile: nat, yTile: nat)
      returns (error: Option<Error>)
    modifies fs
    ensures Run(fs.entries, error) == Step(old(fs.entries), sources, job, fullMask, (xTile, yTile))
  {
    var x := xTile * job.tileSize;
    var y := yTile * job.tileSize;
    var tileName := TileName(job.name, xTile, yTile);
    var tilePath := Join(job.outputDir, tileName);
    if tilePath in fs.entries {
      return None;
    }
    var saved := SaveTile(fs, sources, x, y, job.tileSize, tilePath, job.trig);
    if saved.Err? {
      return Some(saved.error);
    }
    if saved.value != 0 {
      return None;
    }
    if job.maskDir.Some? {
      var maskPath := Join(job.maskDir.value, tileName);
      if maskPath in fs.entries {
        return None;
      }
      if fullMask.None? {
        return Some(FullMaskUnbound);
      }
      var masked := SaveTile(fs, [fullMask.value], x, y, job.tileSize, maskPath, job.trig);
      if masked.Err? {
        return Some(masked.error);
      }
    }
    return None;
  }

  // ---------------------------------------------------------------------------
  // save_tiles (tiles.py:40-80)
  // ---------------------------------------------------------------------------

  /** The state after the full-size mask is prepared, the mask's path if
      there is one, and the exception raised on the way, if any. */
  datatype Prepared = Prepared(entries: Entries, fullMask: Option<string>, error: Option<Error>)

  /** The temporary folder `TempFolder()` creates on `entries`; it is new. */
  function MaskFolder(entries: Entries, tempRoot: string): (folder: string)
    ensures folder !in entries
  {
    Paths.TempPath(tempRoot, Paths.FirstFree(entries.Keys, tempRoot))
  }

  /** Where `TempName(ext='tif')` puts the full-size mask: inside that folder. */
  function FullMaskPath(entries: Entries, tempRoot: string): (p: string)
    ensures var folder := MaskFolder(entries, tempRoot);
      |p| > |folder| + 1 && p[..|folder| + 1] == folder + [SEP]
  {
    var folder := MaskFolder(entries, tempRoot);
    var p := Paths.FullPath(folder, "tmp", "tif");
    assert (folder + [SEP] + "tmp")[..|folder| + 1] == folder + [SEP];
    p
  }

  /** tiles.py:48-50, with masking on and the mask folder present: when the
      first source exists, a temporary folder is created and the vector layer
      is rasterized onto the first source's grid; otherwise nothing happens
      and `full_mask_path` stays unassigned. */
  function PrepareMask(entries: Entries, first: string, tempRoot: string, burn: (int, int) -> int): Prepared {
    if first !in entries then Prepared(entries, None, None)
    else
      var created := entries[MaskFolder(entries, tempRoot) := Folder];
      match Open(created, first)
      case None => Prepared(created, None, Some(CannotOpenRaster(first)))
      case Some(source) =>
        Prepared(created[FullMaskPath(entries, tempRoot) := RasterFile(MaskRaster(source, burn))],
          Some(FullMaskPath(entries, tempRoot)), None)
  }

  /** When the first source exists, a temporary folder that did not exist
      before is created; when that source can be opened, its mask is written
      into the folder and nothing that existed is changed but that path; when
      it cannot, the rasterization raises. When the first source is missing
      nothing happens. */
  lemma PrepareMaskCreates(entries: Entries, first: string, tempRoot: string, burn: (int, int) -> int)
    ensures first !in entries ==> PrepareMask(entries, first, tempRoot, burn) == Prepared(entries, None, None)
    ensures first in entries ==>
      var after := PrepareMask(entries, first, tempRoot, burn).entries;
      MaskFolder(entries, tempRoot) in after && after[MaskFolder(entries, tempRoot)] == Folder
    ensures first in entries && Open(entries, first).None? ==>
      PrepareMask(entries, first, tempRoot, burn).error == Some(CannotOpenRaster(first))
    ensures first in entries && Open(entries, first).Some? ==>
      var prep := PrepareMask(entries, first, tempRoot, burn);
      var fullMask := FullMaskPath(entries, tempRoot);
      prep.error.None? && prep.fullMask == Some(fullMask) && fullMask in prep.entries &&
      prep.entries[fullMask] == RasterFile(MaskRaster(Open(entries, first).value, burn))
    ensures first in entries && Open(entries, first).Some? ==>
      var after := PrepareMask(entries, first, tempRoot, burn).entries;
      forall p :: p in entries && p != FullMaskPath(entries, tempRoot) ==> p in after && after[p] == entries[p]
  {
    if first in entries {
      var folder := MaskFolder(entries, tempRoot);
      var created := entries[folder := Folder];
      assert Open(created, first) == Open(entries, first);
      if Open(entries, first).Some? {
        var fullMask := FullMaskPath(entries, tempRoot);
        assert fullMask != folder;
        var after := created[fullMask := RasterFile(MaskRaster(Open(entries, first).value, burn))];
        assert PrepareMask(entries, first, tempRoot, burn) == Prepared(after, Some(fullMask), None);
      }
    }
  }

  /** Masking is on when both a mask folder and a vector layer are given. */
  predicate Masking(maskDir: Option<string>, inputVector: Option<string>) {
    maskDir.Some? && inputVector.Some?
  }

  /** The outcome of `save_tiles` (tiles.py:40-80) on a source list `sources`
      with recorded size `size`. */
  function SaveTilesSpec(entries: Entries, sources: seq<string>, size: Option<(nat, nat)>, tempRoot: string,
                         outputDir: string, name: string, ts: int, inputVector: Option<string>,
                         maskDir: Option<string>, burn: (int, int) -> int, trig: Trig): Run
  {
    var masking := Masking(maskDir, inputVector);
    if outputDir !in entries then Run(entries, Some(OutputFolderMissing(outputDir)))
    else if masking && maskDir.value !in entries then Run(entries, Some(MaskFolderMissing(outputDir)))
    else if masking && sources == [] then Run(entries, Some(NoSources))
    else
      var prep := if masking then PrepareMask(entries, sources[0], tempRoot, burn) else Prepared(entries, None, None);
      if prep.error.Some? then Run(prep.entries, prep.error)
      else if size.None? then Run(prep.entries, Some(NoSize))
      else if ts == 0 then Run(prep.entries, Some(ZeroTileSize))
      else
        var job := Job(outputDir, name, ts, if masking then maskDir else None, trig);
        var walk := Walk(prep.entries, sources, job, prep.fullMask, RowMajor(Count(size.value.1, ts), Count(size.value.0, ts)));
        if walk.error.Some? || !masking then walk
        else if prep.fullMask.None? then Run(walk.entries, Some(FullMaskUnbound))
        else Run(Deleted(walk.entries, prep.fullMask.value), None)
  }

  /** The inner loop of tiles.py:53-77: one row of windows, left to right. */
  method CutRow(fs: FileSystem, sources: seq<string>, job: Job, fullMask: Option<string>, yTile: nat, cols: nat)
      returns (error: Option<Error>)
    modifies fs
    ensures Run(fs.entries, error) == Walk(old(fs.entries), sources, job, fullMask, Row(yTile, cols))
  {
    ghost var start := fs.entries;
    ghost var done: seq<(nat, nat)> := [];
    for xTile := 0 to cols
      invariant done == Row(yTile, cols)[..xTile]
      invariant Walk(start, sources, job, fullMask, done) == Run(fs.entries, None)
    {
      error := SaveWindow(fs, sources, job, fullMask, xTile, yTile);
      WalkSnoc(start, sources, job, fullMask, done, (xTile, yTile));
      done := done + [(xTile, yTile)];
      assert done == Row(yTile, cols)[..xTile + 1];
      if error.Some? {
        WalkStops(start, sources, job, fullMask, done, Row(yTile, cols));
        return;
      }
    }
    assert done == Row(yTile, cols);
    return None;
  }

  /** The outer loop of tiles.py:52-77: the rows, top to bottom. */
  method CutGrid(fs: FileSystem, sources: seq<string>, job: Job, fullMask: Option<string>, rows: nat, cols: nat)
      returns (error: Option<Error>)
    modifies fs
    ensures Run(fs.entries, error) == Walk(old(fs.entries), sources, job, fullMask, RowMajor(rows, cols))
  {
    ghost var start := fs.entries;
    for yTile := 0 to rows
      invariant Walk(start, sources, job, fullMask, RowMajor(yTile, cols)) == Run(fs.entries, None)
    {
      error := CutRow(fs, sources, job, fullMask, yTile, cols);
      WalkAppend(start, sources, job, fullMask, RowMajor(yTile, cols), Row(yTile, cols));
      if error.Some? {
        RowMajorPrefix(rows, cols, yTile, cols);
        assert Row(yTile, cols)[..cols] == Row(yTile, cols);
        WalkStops(start, sources, job, fullMask, RowMajor(yTile + 1, cols), RowMajor(rows, cols));
        return;
      }
    }
    return None;
  }

  /** The dimensions recorded for a source. */
  function SizeOf(r: Raster): (nat, nat) {
    (r.width, r.height)
  }

  /** A list of source raster paths (tiles.py:19-80). */
  class RasterBandSource {
    /** The list itself: the source paths, in order. */
    var paths: seq<string>
    /** `(RasterXSize, RasterYSize)` of the first source, `None` while empty. */
    var size: Option<(nat, nat)>

    /** tiles.py:22-23 */
    constructor Empty()
      ensures paths == [] && size == None
    {
      paths := [];
      size := None;
    }

    /** tiles.py:21-36: every input must open; the size is taken from the first
        one, and a later source of another size is accepted because the
        mismatch exception is built but never raised (tiles.py:34). */
    static method Create(fs: FileSystem, inputs: seq<string>) returns (r: Result<RasterBandSource, Error>)
      ensures r.Ok? <==> forall i :: 0 <= i < |inputs| ==> Open(fs.entries, inputs[i]).Some?
      ensures r.Err? ==> (FirstNone(OpenAll(fs.entries, inputs), 0).Some? &&
        r.error == CannotOpenRaster(inputs[FirstNone(OpenAll(fs.entries, inputs), 0).value]))
      ensures r.Ok? ==> (fresh(r.value) && r.value.paths == inputs &&
        r.value.size == if inputs == [] then None else Some(SizeOf(Open(fs.entries, inputs[0]).value)))
    {
      var source := new RasterBandSource.Empty();
      for i := 0 to |inputs|
        invariant forall j :: 0 <= j < i ==> Open(fs.entries, inputs[j]).Some?
        invariant source.paths == inputs[..i]
        invariant source.size == if i == 0 then None else Some(SizeOf(Open(fs.entries, inputs[0]).value))
        invariant fresh(source)
      {
        var dsIn := Open(fs.entries, inputs[i]);
        if dsIn.None? {
          assert FirstNone(OpenAll(fs.entries, inputs), 0) == Some(i);
          return Err(CannotOpenRaster(inputs[i]));
        }
        if source.size.None? {
          source.size := Some(SizeOf(dsIn.value));
        } else if source.size.value != SizeOf(dsIn.value) {
          // the exception object is created and dropped (tiles.py:34-35)
        }
        source.paths := source.paths + [inputs[i]];
      }
      assert inputs[..|inputs|] == inputs;
      return Ok(source);
    }

    /** tiles.py:40-80 */
    method SaveTiles(fs: FileSystem, outputDir: string, name: string, tileSize: int, inputVector: Option<string>,
                     maskDir: Option<string>, burn: (int, int) -> int, trig: Trig)
        returns (error: Option<Error>)
      modifies fs
      ensures Run(fs.entries, error) == SaveTilesSpec(old(fs.entries), paths, size, fs.tempRoot,
        outputDir, name, tileSize, inputVector, maskDir, burn, trig)
    {
      if outputDir !in fs.entries {
        return Some(OutputFolderMissing(outputDir));
      }
      var masking := maskDir.Some? && inputVector.Some?;
      var fullMask: Option<string> := None;
      if masking {
        if maskDir.value !in fs.entries {
          return Some(MaskFolderMissing(outputDir));
        } else {
          if paths == [] {
            return Some(NoSources);
          }
          if paths[0] in fs.entries {
            var fullMaskPath := Paths.TempName(fs, "tmp", "tif");
            error := RasterizeMask(fs, paths[0], fullMaskPath, burn);
            if error.Some? {
              return;
            }
            fullMask := Some(fullMaskPath);
          }
        }
      }
      if size.None? {
        return Some(NoSize);
      }
      if tileSize == 0 {
        return Some(ZeroTileSize);
      }
      var job := Job(outputDir, name, tileSize, if masking then maskDir else None, trig);
      var rows := Count(size.value.1, tileSize);
      var cols := Count(size.value.0, tileSize);
      error := CutGrid(fs, paths, job, fullMask, rows, cols);
      if error.Some? {
        return;
      }
      if masking {
        if fullMask.None? {
          return Some(FullMaskUnbound);
        }
        fs.DeleteFile(fullMask.value);
      }
      return None;
    }
  }

  // ---------------------------------------------------------------------------
  // What a run does to the file system
  // ---------------------------------------------------------------------------

  /** One more window: the loop body runs on the state the earlier windows
      left, unless they raised. */
  lemma WalkSnoc(entries: Entries, sources: seq<string>, job: Job, fullMask: Option<string>,
                 done: seq<(nat, nat)>, w: (nat, nat))
    ensures var before := Walk(entries, sources, job, fullMask, done);
      Walk(entries, sources, job, fullMask, done + [w])
        == if before.error.Some? then before else Step(before.entries, sources, job, fullMask, w)
  {
    assert (done + [w])[..|done|] == done;
  }

  /** Walking two lists of windows one after the other is walking their
      concatenation. */
  lemma {:induction false} WalkAppend(entries: Entries, sources: seq<string>, job: Job, fullMask: Option<string>,
                                      a: seq<(nat, nat)>, b: seq<(nat, nat)>)
    ensures var first := Walk(entries, sources, job, fullMask, a);
      Walk(entries, sources, job, fullMask, a + b)
        == if first.error.Some? then first else Walk(first.entries, sources, job, fullMask, b)
    decreases |b|
  {
    if b == [] {
      assert a + b == a;
    } else {
      var b', w := b[..|b| - 1], b[|b| - 1];
      assert a + b == (a + b') + [w] && b == b' + [w];
      WalkAppend(entries, sources, job, fullMask, a, b');
      WalkSnoc(entries, sources, job, fullMask, a + b', w);
      var first := Walk(entries, sources, job, fullMask, a);
      WalkSnoc(first.entries, sources, job, fullMask, b', w);
    }
  }

  /** An exception ends the run: later windows are not visited. */
  lemma {:induction false} WalkStops(entries: Entries, sources: seq<string>, job: Job, fullMask: Option<string>,
                                     done: seq<(nat, nat)>, ws: seq<(nat, nat)>)
    requires |done| <= |ws| && ws[..|done|] == done
    requires Walk(entries, sources, job, fullMask, done).error.Some?
    ensures Walk(entries, sources, job, fullMask, ws) == Walk(entries, sources, job, fullMask, done)
    decreases |ws|
  {
    if |ws| > |done| {
      assert ws[..|ws| - 1][..|done|] == done;
      WalkStops(entries, sources, job, fullMask, done, ws[..|ws| - 1]);
    } else {
      assert ws == done;
    }
  }

  /** Every entry of `before` is still there, unchanged. */
  predicate Extends(after: Entries, before: Entries) {
    forall p :: p in before ==> p in after && after[p] == before[p]
  }

  /** An existing tile is skipped: nothing is read or written for its window
      and no mask tile is attempted (tiles.py:59-60). */
  lemma StepSkipsExisting(entries: Entries, sources: seq<string>, job: Job, fullMask: Option<string>, w: (nat, nat))
    requires ImagePath(job, w) in entries
    ensures Step(entries, sources, job, fullMask, w) == Run(entries, None)
  {
  }

  /** A mask tile is written only for a window whose image tile did not exist
      and was written by this pass, and only from a full-size mask
      (tiles.py:62-77). */
  lemma StepMaskRule(entries: Entries, sources: seq<string>, job: Job, fullMask: Option<string>, w: (nat, nat))
    requires job.maskDir.Some?
    ensures var r := Step(entries, sources, job, fullMask, w);
      var t := TileResult(entries, sources, w.0 * job.tileSize, w.1 * job.tileSize, job.tileSize, job.trig);
      MaskPath(job, w) !in entries && MaskPath(job, w) in r.entries ==>
        ImagePath(job, w) !in entries && t.Ok? && t.value.Some? &&
        r.entries[ImagePath(job, w)] == RasterFile(t.value.value) &&
        (MaskPath(job, w) != ImagePath(job, w) ==> fullMask.Some?)
  {
  }

  /** The mask side of a window a pass has dealt with: its mask tile exists,
      or the full-size mask is all zero over the window. */
  predicate MaskSettled(entries: Entries, job: Job, fullMask: Option<string>, w: (nat, nat))
    requires job.maskDir.Some?
  {
    MaskPath(job, w) in entries ||
    (fullMask.Some? &&
      TileResult(entries, [fullMask.value], w.0 * job.tileSize, w.1 * job.tileSize, job.tileSize, job.trig) == Ok(None))
  }

  lemma MaskSettledStable(entries: Entries, later: Entries, job: Job, fullMask: Option<string>, w: (nat, nat))
    requires job.maskDir.Some? && MaskSettled(entries, job, fullMask, w) && Extends(later, entries)
    ensures MaskSettled(later, job, fullMask, w)
  {
    if MaskPath(job, w) !in entries {
      TileResultStable(entries, later, [fullMask.value], w.0 * job.tileSize, w.1 * job.tileSize,
                       job.tileSize, job.trig);
    }
  }

  /** The converse of `StepMaskRule`: with masking on, a pass that writes a
      window's tile and raises nothing leaves the window's mask settled
      (tiles.py:65-77). */
  lemma StepPairsMask(entries: Entries, sources: seq<string>, job: Job, fullMask: Option<string>, w: (nat, nat))
    requires job.maskDir.Some? && ImagePath(job, w) !in entries
    requires Step(entries, sources, job, fullMask, w).error.None?
    ensures var r := Step(entries, sources, job, fullMask, w);
      var t := TileResult(entries, sources, w.0 * job.tileSize, w.1 * job.tileSize, job.tileSize, job.trig);
      t.Ok? &&
      (t.value.Some? <==> ImagePath(job, w) in r.entries) &&
      (t.value.Some? ==> r.entries[ImagePath(job, w)] == RasterFile(t.value.value) &&
                         MaskSettled(r.entries, job, fullMask, w))
  {
  }

  /** With masking on, no tile of the output folder is a mask tile. */
  ghost predicate TilesApartFromMasks(job: Job)
    requires job.maskDir.Some?
  {
    forall v, w :: MaskPath(job, v) != ImagePath(job, w)
  }

  lemma ImagePathInjective(job: Job, v: (nat, nat), w: (nat, nat))
    requires ImagePath(job, v) == ImagePath(job, w)
    ensures v == w
  {
    JoinInjective(job.outputDir, TileName(job.name, v.0, v.1), TileName(job.name, w.0, w.1));
    TileNameInjective(job.name, v.0, v.1, w.0, w.1);
  }

  /** With masking on and mask tiles apart from the tiles, a walk that raises
      nothing leaves the mask settled for every window whose tile it wrote. */
  lemma {:induction false} WalkPairsMasks(entries: Entries, sources: seq<string>, job: Job, fullMask: Option<string>,
                                          ws: seq<(nat, nat)>)
    requires job.maskDir.Some? && TilesApartFromMasks(job)
    requires Walk(entries, sources, job, fullMask, ws).error.None?
    ensures var r := Walk(entries, sources, job, fullMask, ws);
      forall w :: w in ws && ImagePath(job, w) !in entries && ImagePath(job, w) in r.entries ==>
        MaskSettled(r.entries, job, fullMask, w)
  {
    if ws != [] {
      var init := ws[..|ws| - 1];
      var last := ws[|ws| - 1];
      var before := Walk(entries, sources, job, fullMask, init);
      WalkPairsMasks(entries, sources, job, fullMask, init);
      WalkOnlyAdds(entries, sources, job, fullMask, init);
      var r := Step(before.entries, sources, job, fullMask, last);
      StepOnlyAdds(before.entries, sources, job, fullMask, last);
      if ImagePath(job, last) !in before.entries {
        StepPairsMask(before.entries, sources, job, fullMask, last);
      }
      forall w | w in ws && ImagePath(job, w) !in entries && ImagePath(job, w) in r.entries
        ensures MaskSettled(r.entries, job, fullMask, w)
      {
        ImageOrigin(entries, before.entries, r.entries, job, init, last, w);
        if ImagePath(job, w) in before.entries {
          MaskSettledStable(before.entries, r.entries, job, fullMask, w);
        }
      }
    }
  }

  /** A tile the walk created was created by the pass over its own window:
      the last one, or an earlier one. */
  lemma ImageOrigin(entries: Entries, before: Entries, after: Entries, job: Job,
                    init: seq<(nat, nat)>, last: (nat, nat), w: (nat, nat))
    requires job.maskDir.Some? && TilesApartFromMasks(job)
    requires forall p :: p in before && p !in entries ==> exists v :: v in init && WrittenFor(before, job, v, p)
    requires forall p :: p in after && p !in before ==> WrittenFor(after, job, last, p)
    requires ImagePath(job, w) !in entries && ImagePath(job, w) in after
    ensures ImagePath(job, w) in before ==> w in init
    ensures ImagePath(job, w) !in before ==> w == last
  {
    if ImagePath(job, w) in before {
      var v :| v in init && WrittenFor(before, job, v, ImagePath(job, w));
      assert MaskPath(job, v) != ImagePath(job, w);
      ImagePathInjective(job, v, w);
    } else {
      assert WrittenFor(after, job, last, ImagePath(job, w));
      assert MaskPath(job, last) != ImagePath(job, w);
      ImagePathInjective(job, last, w);
    }
  }

  /** A path a pass over `w` may create: the window's tile, or its mask tile
      once the tile exists. */
  predicate WrittenFor(entries: Entries, job: Job, w: (nat, nat), p: string) {
    p == ImagePath(job, w) || (job.maskDir.Some? && p == MaskPath(job, w) && ImagePath(job, w) in entries)
  }

  /** The loop body never overwrites nor removes anything, and creates only
      the window's tile and mask tile. */
  lemma StepOnlyAdds(entries: Entries, sources: seq<string>, job: Job, fullMask: Option<string>, w: (nat, nat))
    ensures var r := Step(entries, sources, job, fullMask, w);
      Extends(r.entries, entries) &&
      forall p :: p in r.entries && p !in entries ==> WrittenFor(r.entries, job, w, p)
  {
  }

  /** A walk never overwrites nor removes anything; every path it creates is
      the tile of a visited window, or that window's mask tile. */
  lemma {:induction false} WalkOnlyAdds(entries: Entries, sources: seq<string>, job: Job, fullMask: Option<string>,
                                        ws: seq<(nat, nat)>)
    ensures var r := Walk(entries, sources, job, fullMask, ws);
      Extends(r.entries, entries) &&
      forall p :: p in r.entries && p !in entries ==> exists w :: w in ws && WrittenFor(r.entries, job, w, p)
  {
    if ws != [] {
      var init := ws[..|ws| - 1];
      var last := ws[|ws| - 1];
      var before := Walk(entries, sources, job, fullMask, init);
      WalkOnlyAdds(entries, sources, job, fullMask, init);
      if before.error.None? {
        var r := Step(before.entries, sources, job, fullMask, last);
        StepOnlyAdds(before.entries, sources, job, fullMask, last);
        forall p | p in r.entries && p !in entries
          ensures exists w :: w in ws && WrittenFor(r.entries, job, w, p)
        {
          if p in before.entries {
            var w :| w in init && WrittenFor(before.entries, job, w, p);
            assert w in ws && WrittenFor(r.entries, job, w, p);
          } else {
            assert last in ws && WrittenFor(r.entries, job, last, p);
          }
        }
      }
    }
  }

  /** A window a later pass leaves alone: its tile exists, or its source
      windows are all zero. */
  predicate Settled(entries: Entries, sources: seq<string>, job: Job, w: (nat, nat)) {
    ImagePath(job, w) in entries ||
    TileResult(entries, sources, w.0 * job.tileSize, w.1 * job.tileSize, job.tileSize, job.trig) == Ok(None)
  }

  /** `save_tile` only looks at its sources, so adding files elsewhere does not
      change its outcome once every source opens. */
  lemma TileResultStable(entries: Entries, later: Entries, inputs: seq<string>, x: int, y: int, ts: int, trig: Trig)
    requires Extends(later, entries)
    requires TileResult(entries, inputs, x, y, ts, trig).Ok?
    ensures TileResult(later, inputs, x, y, ts, trig) == TileResult(entries, inputs, x, y, ts, trig)
  {
    assert OpenAll(later, inputs) == OpenAll(entries, inputs);
  }

  lemma SettledStable(entries: Entries, later: Entries, sources: seq<string>, job: Job, w: (nat, nat))
    requires Settled(entries, sources, job, w) && Extends(later, entries)
    ensures Settled(later, sources, job, w)
  {
    if ImagePath(job, w) !in entries {
      TileResultStable(entries, later, sources, w.0 * job.tileSize, w.1 * job.tileSize, job.tileSize, job.trig);
    }
  }

  /** A pass that raises nothing leaves its window settled. */
  lemma StepSettles(entries: Entries, sources: seq<string>, job: Job, fullMask: Option<string>, w: (nat, nat))
    requires Step(entries, sources, job, fullMask, w).error.None?
    ensures Settled(Step(entries, sources, job, fullMask, w).entries, sources, job, w)
  {
    StepOnlyAdds(entries, sources, job, fullMask, w);
  }

  /** After a walk that raised nothing every visited window is settled. */
  lemma {:induction false} WalkSettles(entries: Entries, sources: seq<string>, job: Job, fullMask: Option<string>,
                                       ws: seq<(nat, nat)>)
    requires Walk(entries, sources, job, fullMask, ws).error.None?
    ensures forall w :: w in ws ==> Settled(Walk(entries, sources, job, fullMask, ws).entries, sources, job, w)
  {
    if ws != [] {
      var init := ws[..|ws| - 1];
      var last := ws[|ws| - 1];
      var before := Walk(entries, sources, job, fullMask, init);
      WalkSettles(entries, sources, job, fullMask, init);
      var r := Step(before.entries, sources, job, fullMask, last);
      StepOnlyAdds(before.entries, sources, job, fullMask, last);
      StepSettles(before.entries, sources, job, fullMask, last);
      forall w | w in ws
        ensures Settled(r.entries, sources, job, w)
      {
        if w != last {
          assert w in init;
          SettledStable(before.entries, r.entries, sources, job, w);
        }
      }
    }
  }

  /** A walk over settled windows changes nothing and raises nothing,
      whatever full-size mask it is given. */
  lemma {:induction false} WalkIdle(entries: Entries, sources: seq<string>, job: Job, fullMask: Option<string>,
                                    ws: seq<(nat, nat)>)
    requires forall w :: w in ws ==> Settled(entries, sources, job, w)
    ensures Walk(entries, sources, job, fullMask, ws) == Run(entries, None)
  {
    if ws != [] {
      assert forall w :: w in ws[..|ws| - 1] ==> w in ws;
      WalkIdle(entries, sources, job, fullMask, ws[..|ws| - 1]);
      assert ws[|ws| - 1] in ws;
    }
  }

  /** Re-running the loops over the same windows after a run that raised
      nothing writes nothing: existing tiles are skipped and empty windows
      stay empty. */
  lemma WalkIdempotent(entries: Entries, sources: seq<string>, job: Job, fullMask: Option<string>,
                       fullMask': Option<string>, ws: seq<(nat, nat)>)
    requires Walk(entries, sources, job, fullMask, ws).error.None?
    ensures var done := Walk(entries, sources, job, fullMask, ws).entries;
      Walk(done, sources, job, fullMask', ws) == Run(done, None)
  {
    WalkSettles(entries, sources, job, fullMask, ws);
    WalkIdle(Walk(entries, sources, job, fullMask, ws).entries, sources, job, fullMask', ws);
  }

  // ---------------------------------------------------------------------------
  // What save_tiles promises
  // ---------------------------------------------------------------------------

  /** The folder checks come first and leave the file system untouched: a
      missing output folder raises, and with masking on a missing mask folder
      raises with a message naming the output folder (tiles.py:43-47). */
  lemma SaveTilesFolderChecks(entries: Entries, sources: seq<string>, size: Option<(nat, nat)>, tempRoot: string,
                              outputDir: string, name: string, ts: int, inputVector: Option<string>,
                              maskDir: Option<string>, burn: (int, int) -> int, trig: Trig)
    ensures var r := SaveTilesSpec(entries, sources, size, tempRoot, outputDir, name, ts, inputVector, maskDir, burn, trig);
      (outputDir !in entries ==> r == Run(entries, Some(OutputFolderMissing(outputDir)))) &&
      (outputDir in entries && Masking(maskDir, inputVector) && maskDir.value !in entries ==>
        r == Run(entries, Some(MaskFolderMissing(outputDir))))
  {
  }

  /** Without masking, `save_tiles` keeps every existing entry and creates only
      tiles of windows in the grid: column below floor(width / ts), row below
      floor(height / ts). */
  lemma SaveTilesOnlyAddsTiles(entries: Entries, sources: seq<string>, size: Option<(nat, nat)>, tempRoot: string,
                               outputDir: string, name: string, ts: int, inputVector: Option<string>,
                               maskDir: Option<string>, burn: (int, int) -> int, trig: Trig)
    requires !Masking(maskDir, inputVector)
    ensures var r := SaveTilesSpec(entries, sources, size, tempRoot, outputDir, name, ts, inputVector, maskDir, burn, trig);
      Extends(r.entries, entries) &&
      forall p :: p in r.entries && p !in entries ==>
        size.Some? && ts != 0 &&
        exists xTile: nat, yTile: nat :: (xTile < Count(size.value.0, ts) && yTile < Count(size.value.1, ts) &&
          p == Join(outputDir, TileName(name, xTile, yTile)))
  {
    if outputDir in entries && size.Some? && ts != 0 {
      var job := Job(outputDir, name, ts, None, trig);
      var ws := RowMajor(Count(size.value.1, ts), Count(size.value.0, ts));
      WalkOnlyAdds(entries, sources, job, None, ws);
      var r := Walk(entries, sources, job, None, ws);
      forall p | p in r.entries && p !in entries
        ensures exists xTile: nat, yTile: nat :: (xTile < Count(size.value.0, ts) && yTile < Count(size.value.1, ts) &&
          p == Join(outputDir, TileName(name, xTile, yTile)))
      {
        var w :| w in ws && WrittenFor(r.entries, job, w, p);
        RowMajorMembers(Count(size.value.1, ts), Count(size.value.0, ts), w);
      }
    }
  }

  /** A successful `save_tiles` leaves every window of the grid settled: its
      tile exists, or all of its source windows are zero. */
  lemma SaveTilesCovers(entries: Entries, sources: seq<string>, size: Option<(nat, nat)>, tempRoot: string,
                        outputDir: string, name: string, ts: int, inputVector: Option<string>,
                        maskDir: Option<string>, burn: (int, int) -> int, trig: Trig)
    requires !Masking(maskDir, inputVector)
    requires SaveTilesSpec(entries, sources, size, tempRoot, outputDir, name, ts, inputVector, maskDir, burn, trig).error.None?
    ensures var r := SaveTilesSpec(entries, sources, size, tempRoot, outputDir, name, ts, inputVector, maskDir, burn, trig);
      size.Some? && ts != 0 &&
      forall xTile: nat, yTile: nat :: xTile < Count(size.value.0, ts) && yTile < Count(size.value.1, ts) ==>
        Join(outputDir, TileName(name, xTile, yTile)) in r.entries ||
        TileResult(r.entries, sources, xTile * ts, yTile * ts, ts, trig) == Ok(None)
  {
    var job := Job(outputDir, name, ts, None, trig);
    var ws := RowMajor(Count(size.value.1, ts), Count(size.value.0, ts));
    var r := SaveTilesSpec(entries, sources, size, tempRoot, outputDir, name, ts, inputVector, maskDir, burn, trig);
    assert r == Walk(entries, sources, job, None, ws);
    WalkSettles(entries, sources, job, None, ws);
    forall xTile: nat, yTile: nat | xTile < Count(size.value.0, ts) && yTile < Count(size.value.1, ts)
      ensures Join(outputDir, TileName(name, xTile, yTile)) in r.entries ||
        TileResult(r.entries, sources, xTile * ts, yTile * ts, ts, trig) == Ok(None)
    {
      RowMajorMembers(Count(size.value.1, ts), Count(size.value.0, ts), (xTile, yTile));
      assert Settled(r.entries, sources, job, (xTile, yTile));
    }
  }

  /** Without masking, running `save_tiles` again on what a successful run
      left changes nothing and raises nothing. */
  lemma SaveTilesIdempotent(entries: Entries, sources: seq<string>, size: Option<(nat, nat)>, tempRoot: string,
                            outputDir: string, name: string, ts: int, inputVector: Option<string>,
                            maskDir: Option<string>, burn: (int, int) -> int, trig: Trig)
    requires !Masking(maskDir, inputVector)
    requires SaveTilesSpec(entries, sources, size, tempRoot, outputDir, name, ts, inputVector, maskDir, burn, trig).error.None?
    ensures var done := SaveTilesSpec(entries, sources, size, tempRoot, outputDir, name, ts, inputVector, maskDir, burn, trig).entries;
      SaveTilesSpec(done, sources, size, tempRoot, outputDir, name, ts, inputVector, maskDir, burn, trig) == Run(done, None)
  {
    var job := Job(outputDir, name, ts, None, trig);
    var ws := RowMajor(Count(size.value.1, ts), Count(size.value.0, ts));
    WalkIdempotent(entries, sources, job, None, None, ws);
    WalkOnlyAdds(entries, sources, job, None, ws);
  }

  /** With masking, a successful `save_tiles` has rasterized the full-size
      mask into a fresh temporary folder and deleted the mask file again; the
      folder itself stays. */
  lemma SaveTilesCleansUp(entries: Entries, sources: seq<string>, size: Option<(nat, nat)>, tempRoot: string,
                          outputDir: string, name: string, ts: int, inputVector: Option<string>,
                          maskDir: Option<string>, burn: (int, int) -> int, trig: Trig)
    requires Masking(maskDir, inputVector)
    requires SaveTilesSpec(entries, sources, size, tempRoot, outputDir, name, ts, inputVector, maskDir, burn, trig).error.None?
    ensures var r := SaveTilesSpec(entries, sources, size, tempRoot, outputDir, name, ts, inputVector, maskDir, burn, trig);
      var folder := MaskFolder(entries, tempRoot);
      sources != [] && sources[0] in entries && Open(entries, sources[0]).Some? &&
      folder !in entries && folder in r.entries && r.entries[folder] == Folder &&
      FullMaskPath(entries, tempRoot) !in r.entries
  {
    var prep := PrepareMask(entries, sources[0], tempRoot, burn);
    var job := Job(outputDir, name, ts, maskDir, trig);
    var ws := RowMajor(Count(size.value.1, ts), Count(size.value.0, ts));
    var walk := Walk(prep.entries, sources, job, prep.fullMask, ws);
    var r := SaveTilesSpec(entries, sources, size, tempRoot, outputDir, name, ts, inputVector, maskDir, burn, trig);
    assert prep.error.None? && walk.error.None? && prep.fullMask.Some?;
    assert r == Run(Deleted(walk.entries, prep.fullMask.value), None);
    PrepareMaskCreates(entries, sources[0], tempRoot, burn);
    WalkOnlyAdds(prep.entries, sources, job, prep.fullMask, ws);
  }
}
