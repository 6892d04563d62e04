# image_tiles in Dafny

A model of the core of a small Python tool that cuts georeferenced satellite
rasters into square image tiles for machine-learning datasets, with a proof of
what it does to the file system.

- **Tiling engine (`tiles.py`).**
  - `RasterBandSource` is an ordered list of one-band rasters and the size of the first one.
  - `save_tiles` walks the grid of `floor(H / ts)` by `floor(W / ts)` windows row by row.
  - For each window whose tile file does not yet exist it calls `save_tile`. That stacks the same window of every source as one band of a new GeoTIFF, or skips the window when every source is zero there.
  - With masking on, it also cuts a paired mask tile from a full-size mask. The mask is rasterized once into a temporary folder and deleted at the end.
  - `TileGeoTransform` moves the geotransform origin to the tile's pixel offset.
- **Sentinel-2 band catalogue (`source_s2.py`).**
  - `BANDS` maps band codes to band ids and resolutions.
  - `s2_bands` turns band codes into file-name keys, all or nothing, in order.
  - `s2_files` picks, for every key, the first file of a zip archive or a folder listing whose name ends with that key.
- **Path helpers (`paths.py`).**
  - `FullPath` assembles `folder\file.ext`.
  - `CheckPathValidity` returns the first complaint about a path.
  - `TempFolder` creates the first free `TEMP_DIR\i`.
  - `Files` lists the files of a folder tree, filtered by extension.

The file system is a `FileSystem` object whose `entries` map paths to folders, plain files and rasters. A raster is a record holding:
- width and height;
- bands, each of integer pixels with an optional no-data value;
- the six geotransform coefficients;
- a projection string;
- a data type code.

`gdal.Open` gives a raster exactly when the path names one. Exceptions become values of an `Error` datatype, and the state at the moment of the exception is kept.

Each state-changing operation is a method over the file system. Each method is proved equal to a pure specification:
- `save_tile` against `TileResult`;
- the body of the grid loops against `Step`;
- the loops against `Walk`, which folds `Step` over the row-major window list;
- `save_tiles` as a whole against `SaveTilesSpec`.

The lemmas are stated about those specifications.

Modules:
- `Wrappers`: `Option` and `Result`.
- `Text`: decimal printing, `endswith`, `lstrip` and ASCII `lower`.
- `Disk`: rasters, entries, `os.path.join` and `DeleteFile`.
- `Paths`: `paths.py`.
- `SourceS2`: `source_s2.py`.
- `Tiles`: `tiles.py`.

Two behaviours of `tiles.py` are modelled exactly as the code writes them:
- The row count of a window is clipped against the raster's width, not its height (tiles.py:100). On a raster taller than it is wide this has two consequences. A window that starts exactly at the width has no rows: every source reads an empty array, the window counts as all zero and is skipped (`TallRasterWindowEmpty`). A window that starts below the width asks for a negative height, and `save_tiles` fails (`TallRasterWindowFails`).
- The size-mismatch exception in the constructor is built but never raised (tiles.py:34). `Create` accepts sources of different sizes and records the first one's size.

Three more details are also kept as written:
- The mask-folder error names the output folder (tiles.py:47).
- `full_mask_path` stays unassigned when the first source path does not exist (tiles.py:48-50). The first window that reaches `save_tile` then fails on the missing first source. A run in which no window reaches `save_tile` (every tile already exists, or the grid is empty) still fails at the final delete (tiles.py:80).
- The mask raster is created with GDAL data type code 2 (tiles.py:139).

## Model

| member | source | states |
|---|---|---|
| Disk.Join | tiles.py:57 | definition: `os.path.join(dir, name)` adds a separator only when `dir` is non-empty, is not a bare drive such as `C:`, and does not already end with `\` or `/` |
| Disk.Open | tiles.py:97 | definition: `gdal.Open(path)` gives the raster stored at the path, and `None` for a missing path, a folder or a plain file |
| Disk.Deleted | paths.py:39-44 | after deleting a path it is gone exactly when it named a file (a folder stays); every other entry is unchanged |
| Disk.FileSystem.DeleteFile | paths.py:39-44 | the new entries are those of `Deleted` on the old ones: a file is removed, a missing path or a folder is left alone |
| Disk.JoinParts | tiles.py:57 | `os.path.join(dir, name)` starts with `dir` and ends with `name` |
| Disk.JoinInjective | tiles.py:57 | joining two names onto one folder gives the same path only for the same name |
| Text.Lower | paths.py:67 | lower-casing keeps the length; each ASCII capital becomes its small letter, every other character stays |
| Text.EndsWith | source_s2.py:58 | definition: `s.endswith(suffix)`, the last characters of `s` are `suffix` |
| Text.IntToString | source_s2.py:34 | definition: `str(n)` for an integer, a `-` then the digits of `-n` when negative |
| Text.NatToString | tiles.py:56 | `str(n)` is a non-empty run of decimal digits without a leading zero |
| Text.ParseNatToString | tiles.py:56 | reading the digits of `str(n)` back gives `n` |
| Text.NatToStringInjective | paths.py:106-109 | distinct numbers print as distinct strings |
| Text.LStrip | paths.py:21 | `s.lstrip(c)` is a suffix of `s` that does not start with `c`, and only copies of `c` were removed |
| Text.LowerIsLower | paths.py:67 | lower-casing yields a lower-case string and is idempotent |
| Text.LowerEndsWith | paths.py:77 | a name that ends with a suffix still does after both are lower-cased |
| Paths.FirstFree | paths.py:105-109 | definition: the search from index 0 for the first candidate folder that does not exist (`FirstFreeFrom` and `FreeIndexIsFirst` characterise it) |
| Paths.TempPath | paths.py:106 | definition: the candidate folder `TEMP_DIR\i` |
| Paths.Listed | paths.py:68-82 | definition: the kept files of the whole walk, folder after folder |
| Paths.InFolder | paths.py:72-82 | definition: the kept files of one folder, as `corner\file`, in listing order |
| Paths.Kept | paths.py:76-78 | definition: with no extensions every file is kept; otherwise a file whose lower-cased name ends with one of them |
| Paths.FullPath | paths.py:20-21 | the path is `folder\file` followed, for a non-empty extension only, by one `.` and the extension without its leading dots |
| Paths.FullPathLeadingDot | paths.py:21 | `"tif"` and `".tif"` give the same path |
| Paths.CheckPathValidity | paths.py:86-97 | no message exactly when every requested condition holds; which message is returned for a missing path set, an existing file, a missing file and a missing parent folder, with `must_exist` checked before the folder |
| Paths.TempPathInjective | paths.py:106-109 | distinct indices give distinct candidate folders |
| Paths.TempPathsCount | paths.py:106-109 | the first n candidate folders are n distinct paths |
| Paths.TempPathsBound | paths.py:107-109 | when the first n candidate folders all exist, n is at most the number of entries, so the search for a free one stops |
| Paths.FirstFreeFrom | paths.py:105-109 | the index found is free and every smaller candidate exists |
| Paths.FreeIndexIsFirst | paths.py:105-109 | an index that is free while all smaller ones exist is the one the search finds |
| Paths.TempFolder | paths.py:104-111 | returns `TEMP_DIR\i` for the smallest free `i`; that folder did not exist, now does, and nothing else changes |
| Paths.TempName | paths.py:114-116 | the path is `FullPath` of a fresh temporary folder, which is the only entry added |
| Paths.NormaliseExt | paths.py:67 | a normalised extension starts with exactly one `.` and is lower case |
| Paths.NormaliseExtKeeps | paths.py:67 | an extension without a leading dot becomes `.` followed by its lower-cased self; a leading dot makes no difference; normalising is idempotent |
| Paths.InFolderMembers | paths.py:72-82 | a path is listed for a folder exactly when it is `corner\file` for one of its kept files |
| Paths.ListedMembers | paths.py:68-82 | a path is listed exactly when it is `corner\file` for a kept file anywhere in the walk |
| Paths.HasExtension | paths.py:77 | a file is kept exactly when its lower-cased name ends with one of the extensions |
| Paths.FolderFiles | paths.py:72-82 | the kept files of one folder, as `corner\file`, in listing order |
| Paths.Files | paths.py:60-83 | the result is the ordered listing of kept files for the normalised extensions, or of all files when none are given |
| SourceS2.Extracted | source_s2.py:56-61 | definition: the entries after extracting the picked members, in order, into the folder |
| SourceS2.IsZipSource | source_s2.py:50 | definition: the source is a file whose lower-cased name ends with `.zip` |
| SourceS2.BandFault | source_s2.py:35-40 | definition: a code outside `BANDS` is an unknown band; a code in `BANDS` asked for at a resolution it does not offer is an unsupported resolution |
| SourceS2.Offered | source_s2.py:31-33 | definition: the band is a code of `BANDS` and the resolution is among its resolutions |
| SourceS2.BANDS | source_s2.py:8-22 | definition: the band codes with their band ids and offered resolutions; 'SWIRC' is commented out and absent |
| SourceS2.MatchedKeys | source_s2.py:65-69 | the indices of the keys that have a match, each inside the key list, no more of them than keys |
| SourceS2.FirstMatch | source_s2.py:66-69 | the index of the first candidate ending with the key, inside the listing (`FirstMatchIsFirst` characterises it) |
| SourceS2.BandKey | source_s2.py:32-34 | definition: `{id}_{resolution}m.jp2` for the band's id |
| SourceS2.S2Bands | source_s2.py:26-42 | succeeds exactly when every band is offered at the resolution, returning one `{id}_{res}m.jp2` key per band in order; otherwise fails for the first band that is not, as unknown band or unsupported resolution |
| SourceS2.RedAt10Metres | source_s2.py:11 | 'R' at 10 m is offered and its key is `B04_10m.jp2` |
| SourceS2.NotOffered | source_s2.py:15-18 | 'N' at 20 m and 'WV' at 10 m are unsupported resolutions; the commented-out 'SWIRC' is an unknown band |
| SourceS2.FirstMatchIsFirst | source_s2.py:66-69 | the index found ends with the key and no earlier candidate does; no index when none does |
| SourceS2.Chosen | source_s2.py:66-69 | a key picks at most one candidate, inside the listing |
| SourceS2.Picks | source_s2.py:65-69 | at most one pick per key, each inside the listing |
| SourceS2.PicksAreFirstMatches | source_s2.py:65-69 | every pick is the first match of one of the keys |
| SourceS2.PicksOnePerKey | source_s2.py:65-69 | when every key has a match there is exactly one pick per key, in key order, each the key's first match |
| SourceS2.MatchedKeysOrdered | source_s2.py:65-69 | the matched keys are in increasing order, and a key is among them exactly when some candidate ends with it |
| SourceS2.PicksFollowKeys | source_s2.py:65-69 | the i-th pick is the first match of the i-th key that has a match; those keys are taken in increasing order and every key with a match is among them |
| SourceS2.FolderPicksEndWithKeys | source_s2.py:63-71 | every file returned from a folder ends with a key, at most one per key; the i-th file ends with the i-th key that has a match; exactly one per key in order when all keys match |
| SourceS2.MatchKeys | source_s2.py:65-69 | the nested loops with `break` compute `Picks` |
| SourceS2.MatchIsFirst | source_s2.py:66-69 | the candidate the inner loop stops at is the key's first match |
| SourceS2.NoMatch | source_s2.py:66-69 | an inner loop that runs to the end means the key has no match |
| SourceS2.ExtractPicked | source_s2.py:56-61 | every picked member is extracted into the folder and its joined path returned, in order |
| SourceS2.S2Files | source_s2.py:46-71 | for a zip file: a fresh temporary folder, the picked members extracted into it and their paths; otherwise the first `.jp2` file per key from the listing, with the file system unchanged |
| SourceS2.ZipPicksEndWithKeys | source_s2.py:56-61 | every member extracted from an archive has a name ending with one of the keys; the i-th one ends with the i-th key that has a match |
| Tiles.Masking | tiles.py:45 | definition: masking is on when both a mask folder and a vector layer are given (the same test at tiles.py:65 and 79) |
| Tiles.MaskPath | tiles.py:67 | definition: the mask folder joined to the window's tile name |
| Tiles.ImagePath | tiles.py:56-57 | definition: the output folder joined to the window's tile name |
| Tiles.RowMajor | tiles.py:52-53 | definition: the windows the nested loops visit, row after row and left to right in each row |
| Tiles.Tile | tiles.py:114-125 | definition: the tile `save_tile` writes: the first window's size, one band per window with no-data 0, the shifted geotransform and the projection and data type of the first source |
| Tiles.SaveTilesSpec | tiles.py:40-80 | definition: the folder checks, the mask preparation, the walk over the row-major grid, then deletion of the full-size mask |
| Tiles.PrepareMask | tiles.py:48-50 | definition: nothing when the first source is missing; otherwise a fresh temporary folder and the mask of the first source rasterized into it |
| Tiles.Walk | tiles.py:52-77 | definition: `Step` over the windows in order, stopping at the first exception |
| Tiles.Step | tiles.py:54-77 | definition: skip an existing tile; otherwise `save_tile`, and after a written tile with masking on, the mask tile from the full-size mask unless it exists |
| Tiles.TileName | tiles.py:56 | definition: `{name}_X{x_tile+1}_Y{y_tile+1}.tif` |
| Tiles.Count | tiles.py:52-53 | definition: `floor(size / tile_size)` iterations, none for a negative tile size |
| Tiles.TileResult | tiles.py:95-128 | definition: `TileOf` on the datasets `gdal.Open` gives for the inputs |
| Tiles.TileOf | tiles.py:95-128 | definition: `NoSources` for no inputs, `NoneDataset` for the first input that does not open, `NoneArray` when the first window is not read, `BandIsNone` when another is not, no tile when every window is all zero, otherwise the stacked tile |
| Tiles.YBlockSize | tiles.py:100 | definition: `min(tile_size, RasterXSize - y)`, against the width as written |
| Tiles.XBlockSize | tiles.py:99 | definition: `min(tile_size, RasterXSize - x)` |
| Tiles.TileGeoTransform | tiles.py:85-91 | only the two origin terms change |
| Tiles.TileGeoTransformAligned | tiles.py:85-91 | for a north-up raster the tile's pixel (col, row) lies where the source's pixel (x + col, y + row) lies |
| Tiles.TileGeoTransformExample | tiles.py:85-91 | (500000, 10, 0, 6000000, 0, -10) at pixel (256, 512) gives origin (502560, 5994880) |
| Tiles.BlockSizes | tiles.py:99-100 | both block sizes are at most the tile size; inside the grid the column count is the full tile size; the row count is the full tile size only while the window fits inside the width, zero when the window starts at the width and negative below it |
| Tiles.ReadWindow | tiles.py:102-104 | a window of zero width or height reads an empty array wherever it lies; a window with negative size is refused; any other window is read exactly when it lies inside the raster; a read window has the requested size and holds the band's pixels at the offset |
| Tiles.FirstNone | tiles.py:97-104 | the index found is the first dataset that did not open |
| Tiles.TileOfShape | tiles.py:95-128 | a written tile is well formed, has one band per source holding that source's window with no-data 0, is at most a tile square, and has a band that is not all zero |
| Tiles.TileResultShape | tiles.py:95-128 | an empty source list raises; success needs every source to open; a tile has one band per source, is at most a tile square, has no-data 0, takes geotransform (shifted), projection and data type from the first source, and is not all zero |
| Tiles.TileKeepsPixels | tiles.py:102-125 | pixel (row, col) of band i of a tile is pixel (y + row, x + col) of source i; a skipped window is all zero in every source |
| Tiles.TileFailures | tiles.py:97-111 | once every source opens, `save_tile` raises exactly when some source's window does not lie inside it |
| Tiles.TallRasterWindowFails | tiles.py:100-106 | a window that starts below the first source's width raises, whatever the raster's height |
| Tiles.TallRasterWindowEmpty | tiles.py:100-114 | a window that starts exactly at the first source's width reads empty arrays and is skipped as all zero, whatever the raster holds |
| Tiles.SaveTile | tiles.py:95-128 | raises and changes nothing, returns 1 and changes nothing for an empty window, or returns 0 after writing exactly the tile of `TileResult` at the output path |
| Tiles.WriteTile | tiles.py:115-128 | the output path now holds the tile whose bands are the windows, each with no-data 0, sized like the first window, with the shifted geotransform, projection and data type of the first source; nothing else changes |
| Tiles.MaskRaster | tiles.py:134-145 | the mask has one band of the source's size with no-data 0, the source's geotransform and projection, and data type 2 |
| Tiles.RasterizeMask | tiles.py:134-145 | raises and changes nothing when the source does not open; otherwise writes the mask raster at the output path and nothing else |
| Tiles.RowMajorMembers | tiles.py:52-53 | the loops visit exactly the windows with column below floor(W / ts) and row below floor(H / ts) |
| Tiles.RowMajorOrder | tiles.py:52-55 | the loops visit rows × cols windows, the k-th being (k mod cols, k div cols): row by row, left to right, each once |
| Tiles.GridExample | tiles.py:52-53 | a 612 × 612 raster with 256-pixel tiles gives exactly the four windows (0,0), (1,0), (0,1), (1,1) |
| Tiles.RowMajorPrefix | tiles.py:52-53 | the windows visited so far are a prefix of the full visit |
| Tiles.TileNameInjective | tiles.py:56 | distinct windows get distinct tile names |
| Tiles.SaveWindow | tiles.py:54-77 | one pass of the loop body does what `Step` specifies |
| Tiles.CutRow | tiles.py:53-77 | the inner loop is the walk over one row, stopping at the first exception |
| Tiles.CutGrid | tiles.py:52-77 | the nested loops are the walk over the row-major grid, stopping at the first exception |
| Tiles.WalkSnoc | tiles.py:52-77 | one more window runs the loop body on the state the earlier windows left, unless they raised |
| Tiles.WalkAppend | tiles.py:52-53 | walking two window lists in turn is walking their concatenation |
| Tiles.WalkStops | tiles.py:52-77 | after an exception no further window is visited |
| Tiles.StepSkipsExisting | tiles.py:59-60 | an existing tile is skipped: nothing is read or written and no mask is attempted |
| Tiles.StepMaskRule | tiles.py:62-77 | a mask tile is written only when its image tile did not exist and was just written with a non-empty tile, and only from a full-size mask |
| Tiles.StepPairsMask | tiles.py:62-77 | with masking on, a pass over a window without a tile that raises nothing writes the tile exactly when `save_tile` gives one; it then leaves the window's mask tile present, or the full-size mask all zero over the window |
| Tiles.MaskSettledStable | tiles.py:69-77 | a window whose mask is settled stays so as files are added |
| Tiles.ImagePathInjective | tiles.py:56-57 | distinct windows get distinct tile paths |
| Tiles.WalkPairsMasks | tiles.py:52-77 | with masking on and mask tiles apart from image tiles, a walk that raises nothing leaves every window whose tile it wrote with its mask tile present or the full-size mask all zero there |
| Tiles.StepOnlyAdds | tiles.py:54-77 | the loop body never overwrites or removes an entry; it creates only the window's tile, and its mask tile when that tile exists |
| Tiles.WalkOnlyAdds | tiles.py:52-77 | the loops never overwrite or remove an entry; every new path is the tile of a visited window or that window's mask tile |
| Tiles.TileResultStable | tiles.py:97 | adding entries does not change a successful `save_tile` outcome |
| Tiles.SettledStable | tiles.py:59-63 | a window that is done (tile exists or sources empty) stays done as files are added |
| Tiles.StepSettles | tiles.py:59-63 | a pass that raises nothing leaves its window done |
| Tiles.WalkSettles | tiles.py:52-63 | after a walk that raised nothing every visited window is done |
| Tiles.WalkIdle | tiles.py:52-63 | a walk over done windows changes nothing and raises nothing, whatever full-size mask it is given |
| Tiles.WalkIdempotent | tiles.py:52-63 | re-running the loops after a run that raised nothing writes nothing |
| Tiles.MaskFolder | tiles.py:49 | the temporary folder created for the mask did not exist before |
| Tiles.FullMaskPath | tiles.py:49 | the mask path lies inside that temporary folder |
| Tiles.PrepareMaskCreates | tiles.py:48-50 | with the first source present, a fresh temporary folder is created and, when the source opens, the mask of the source is written into it and nothing else existing changes; with it missing, nothing happens and no mask path is set |
| Tiles.RasterBandSource.Empty | tiles.py:22-23 | a new list is empty and has no size |
| Tiles.RasterBandSource.Create | tiles.py:21-36 | succeeds exactly when every input opens, with the inputs in order and the size of the first one (sizes of later inputs are not checked); otherwise raises for the first input that does not open |
| Tiles.RasterBandSource.SaveTiles | tiles.py:40-80 | the new entries and the exception are those of `SaveTilesSpec`: folder checks, mask preparation, the grid walk, then deletion of the full-size mask |
| Tiles.SaveTilesFolderChecks | tiles.py:43-47 | a missing output folder, or with masking a missing mask folder, raises before anything changes |
| Tiles.SaveTilesOnlyAddsTiles | tiles.py:40-80 | without masking, every existing entry is kept and every new path is `output_dir` joined to the tile name of a grid window |
| Tiles.SaveTilesCovers | tiles.py:52-63 | after a successful run without masking, every grid window has its tile or is all zero in every source |
| Tiles.SaveTilesIdempotent | tiles.py:40-80 | without masking, running `save_tiles` again on what a successful run left changes nothing |
| Tiles.SaveTilesCleansUp | tiles.py:45-80 | a successful masked run rasterized the first source's mask into a fresh temporary folder and deleted the mask file; the folder stays |

## Left out

- GDAL is not modelled.
  - A raster is a record, and `ReadAsArray` reads only the first band.
  - `Create` cannot fail. The GeoTIFF driver, compression and file formats are left out.
  - The data type is one code per raster.
- Geotransforms are real numbers, not floating point, and `sin` and `cos` are parameters.
  - The code reads the two rotation terms as angles.
  - Only the north-up case is related to GDAL's affine map.
- `floor(size / tile_size)` is exact integer division. Rounding of Python's float division on very large sizes is not modelled.
- `gdal.Rasterize` is a foreign call. The burnt pixel values are the parameter `burn`, which stands for the vector layer and its attribute column.
- Tiles.MaskRaster: `burn` gives the values as stored in the mask band. It is taken to be already clamped to 0..65535, the range of data type 2 (tiles.py:139); the model does not clamp it.
- Exceptions are collapsed into the `Error` datatype: kind and path only, not message text.
- `RasterBandSource` inherits from `list`, but only what the tiler uses is modelled. The unused `RasterYSize` attribute (tiles.py:24) is left out too.
- The `functionWorkTime` timing decorator is left out. aux.py is not part of this model.
- `make_tiles` (a stub) is left out, and so is main.py.
- `os.walk` and the zip archive are parameters.
  - `walk` is the folder listing.
  - `members` are the archive's members and what extracting each one writes.
- The `target_path` and `miss_path` regular-expression filters of `Files` are not modelled.
- `str.lower` is modelled for ASCII letters only.
- `os.path.join` is modelled for a relative second argument. Its rules for drive letters and absolute names are left out.
- `TEMP_DIR`, taken from the `TMP` environment variable, is the file system's `tempRoot`. `os.makedirs` creating missing parents is not modelled: only the new folder is added.
- The file system does not require a file's parent folder to exist.
- The following are not part of this model:
  - `TempFiles`, `StopFromStorage` and the import-time purge of old temporary folders;
  - `SplitPath`, `SureDir`, `CopyFile`, `CopySHP` and `DeleteSHP`.
- Tiles.SaveTilesIdempotent: stated only for runs without masking. A masked re-run also creates a new temporary folder, rasterizes the mask into it and leaves the folder behind.
- Tiles.SaveTilesOnlyAddsTiles: stated only for runs without masking. With masking the new paths also include the temporary folder and the mask tiles; `StepMaskRule`, `WalkOnlyAdds` and `SaveTilesCleansUp` cover these.
- Tiles.SaveTilesCovers: stated only for runs without masking; `WalkPairsMasks` covers the mask tiles of a masked walk.
- Tiles.WalkPairsMasks: stated for a job whose mask tile paths never coincide with its image tile paths. When the mask folder and the output folder make them collide, one window's mask tile can stand in for another window's image tile.
