/** The part of the machine the tiler sees: a set of paths, some of them
    folders, some of them raster files GDAL can open, some other files.
    A raster is a record (size, bands, geotransform, projection, data type);
    GDAL's drivers, compression and file formats are not modelled. */
module Disk {
  import opened Wrappers

  /** A band's pixels, row by row: `g[row][column]`. */
  type Grid = seq<seq<int>>

  /** GDAL's six affine coefficients, in GDAL's order
      (c0 .. c5 = origin x, pixel width, row rotation, origin y,
      column rotation, pixel height). */
  datatype GeoTransform = GeoTransform(
    originX: real, pixelWidth: real, rowRotation: real,
    originY: real, columnRotation: real, pixelHeight: real)

  datatype Band = Band(data: Grid, noData: Option<int>)

  /** An opened raster dataset: `RasterXSize`, `RasterYSize`, its bands, the
      geotransform, the projection (an opaque WKT string) and the data type
      code of its first band. */
  datatype Raster = Raster(
    width: nat, height: nat, bands: seq<Band>, geo: GeoTransform,
    projection: string, dataType: int)

  datatype Entry = Folder | PlainFile | RasterFile(raster: Raster)

  type Entries = map<string, Entry>

  /** The Windows path separator the repository writes by hand. */
  const SEP: char := '\\'

  predicate IsGrid(g: Grid, width: int, height: int) {
    |g| == height && forall i :: 0 <= i < |g| ==> |g[i]| == width
  }

  /** Every band holds `height` rows of `width` pixels. */
  predicate WellFormed(r: Raster) {
    forall i :: 0 <= i < |r.bands| ==> IsGrid(r.bands[i].data, r.width, r.height)
  }

  /** `gdal.Open(path)`: a raster when the path names one, `None` otherwise. */
  function Open(entries: Entries, path: string): Option<Raster> {
    if path in entries && entries[path].RasterFile? then Some(entries[path].raster) else None
  }

  /** `os.path.isfile(path)`. */
  predicate IsFile(entries: Entries, path: string) {
    path in entries && !entries[path].Folder?
  }

  predicate IsSep(c: char) {
    c == SEP || c == '/'
  }

  /** A bare drive such as `C:`, with nothing after the colon. */
  predicate IsBareDrive(dir: string) {
    |dir| == 2 && dir[1] == ':'
  }

  /** `os.path.join(dir, name)` on Windows, for a relative `name`: no separator
      is added after an empty folder, a bare drive, or a folder that already
      ends in a separator. */
  function Join(dir: string, name: string): string {
    if dir == [] || IsBareDrive(dir) || IsSep(dir[|dir| - 1]) then dir + name else dir + [SEP] + name
  }

  /** The joined path starts with the folder and ends with the name. */
  lemma JoinParts(dir: string, name: string)
    ensures var p := Join(dir, name);
      |p| >= |dir| + |name| && p[..|dir|] == dir && p[|p| - |name|..] == name
  {
  }

  /** Joining onto one folder never sends two names to one path. */
  lemma JoinInjective(dir: string, a: string, b: string)
    requires Join(dir, a) == Join(dir, b)
    ensures a == b
  {
    JoinParts(dir, a);
    JoinParts(dir, b);
    var k := |Join(dir, a)| - |a|;
    assert |Join(dir, b)| - |b| == k;
    assert a == Join(dir, a)[k..] == Join(dir, b)[k..] == b;
  }

  /** The entries after `DeleteFile(path)` (paths.py:39-44): a file is removed;
      a folder cannot be removed by `os.remove`, and that error is swallowed. */
  function Deleted(entries: Entries, path: string): (r: Entries)
    ensures path in r <==> path in entries && entries[path].Folder?
    ensures forall q :: q != path ==> (q in r <==> q in entries)
    ensures forall q :: q in r ==> r[q] == entries[q]
  {
    if IsFile(entries, path) then map q | q in entries && q != path :: entries[q] else entries
  }

  /** The file system, changed in place by the operations that create folders
      and files. `tempRoot` is the `TEMP_DIR` the path helpers compute from the
      `TMP` environment variable. */
  class FileSystem {
    const tempRoot: string
    var entries: Entries

    constructor (tempRoot: string, entries: Entries)
      ensures this.tempRoot == tempRoot && this.entries == entries
    {
      this.tempRoot := tempRoot;
      this.entries := entries;
    }

    /** paths.py:39-44 */
    method DeleteFile(path: string)
      modifies this
      ensures entries == Deleted(old(entries), path)
    {
      if path in entries && !entries[path].Folder? {
        entries := map q | q in entries && q != path :: entries[q];
      }
    }
  }
}
