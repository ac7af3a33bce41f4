# Brine-valorization ion processing: a Dafny model

This project models the decision core of `ion_processing.py`. That module downloads a
tabular or geospatial dataset, possibly packed in a zip archive, and loads it with the
matching reader. It can turn latitude/longitude columns into point geometries. Its
module-level script then screens water samples by two thresholds and reports row counts.

The model covers four pieces:

- **File-type detection** (`FileTypes`). `detect_file_type` lower-cases a path and takes its
  extension the way POSIX `os.path.splitext` does. It then maps the extension through a
  fixed table to `csv | txt | xls | xlsx | vector | raster | unknown`.
- **Load routing** (`Loader`). `load_data_from_url` decides which reader runs on which
  input: the downloaded buffer, the open archive member, or the file extracted to the
  scratch directory `extracted_data`. It also decides whether that directory is created and
  removed, and whether the call returns data or raises.
  - The pure functions `Load` and `ScratchAfter` state the outcome as a decision table.
  - The class `Workspace` holds the scratch-directory flag and the target reference system.
    Its method `LoadDataFromUrl` follows the source's branches. It models the try block and
    the except block as the two methods `TryDirectRead` and `ExtractAndRead`, and is proved
    equal to the decision table.
  - Foreign calls are oracles (`Oracles`): the archive constructor, `zip_file.open`, every
    reader, and `to_crs`. Each one either returns or raises.
  - A loaded value (`Dataset`) records which reader produced it, from which input, and (for
    vector frames) the reference system it was projected into.
- **Point construction** (`Points`). `lat_long_to_point` makes one point per row, in row
  order, with x taken from the longitude column and y from the latitude column. It then
  reprojects the points; the transformation is a parameter.
- **Threshold screening** (`Thresholds`). The script keeps rows with `TDS_mgL >= 1000`, then
  rows with `charge_balance_eq < 0.1`, and counts the rows kept and excluded at each stage.
  Data frames are sequences of rows (`Frames`), and cells are exact reals.

Behaviours of the code the model keeps:

- When zipped is requested, the archive is opened before `filepath` is checked. A payload
  that is not a zip archive raises `NotAZipArchive` even when `filepath` is missing.
- In the zipped branch, neither a `txt` member nor an `unknown` one assigns `data`. The
  call ends in `UnboundLocalError` (`DataUnbound`) instead of returning.
- A member missing from the archive makes `zip_file.open` raise inside the `try`. The bare
  `except` turns that into the extraction path as well.
- The fallback error for an unknown type is a `ValueError` with a fixed message that does
  not name the URL.
- The missing-column error is pandas' `KeyError`, here `KeyError(column)`.
- `saws_crs` is never bound in the module. The model takes the target system as
  `Workspace.targetCrs` (and as a parameter `target`).

## Model

| member | source | states |
|---|---|---|
| `FileTypes.LastIndexOf` | ion_processing.py:31 | the index splitext searches for: a position holding the character, with no occurrence after it, or -1 when there is none |
| `FileTypes.SplitExt` | ion_processing.py:31 | the two parts concatenate back to the path; the extension is empty or starts with `.` and has no further `.` or `/` |
| `FileTypes.ExtensionOfName` | ion_processing.py:31 | when the final component has a non-dot character before the last dot, the extension is that dot plus the dot-free name after it |
| `FileTypes.ExtensionDecomposes` | ion_processing.py:31 | conversely, every non-empty extension has that shape |
| `FileTypes.ExtensionIgnoresCase` | ion_processing.py:31 | the extension of the lower-cased path is the lower-cased extension of the path |
| `FileTypes.Lower` | ion_processing.py:31 | `path.lower()` keeps the length and lower-cases each character (ASCII letters only) |
| `FileTypes.ClassifyExtension` | ion_processing.py:32-38 | the if-chain of membership tests; it has no ensures of its own, and `ClassifyFollowsTable` states its contract |
| `FileTypes.ClassifyFollowsTable` | ion_processing.py:32-38 | the if-chain returns exactly the table's tag for the 11 listed extensions and `unknown` for every other string |
| `FileTypes.DetectFileType` | ion_processing.py:30-38 | the tag is the table lookup of the path's own extension, lower-cased, so detection is case-insensitive |
| `FileTypes.DetectIgnoresCase` | ion_processing.py:30-31 | lower-casing a path before detection does not change its type |
| `FileTypes.DetectByName` | ion_processing.py:30-38 | `stem.name` with a dot-free name is classified by `.` plus the lower-cased name, whatever came before |
| `FileTypes.DetectPlainName` | ion_processing.py:30-38 | the same for a stem with no directory part and no leading dot |
| `FileTypes.LeadingDotsOnlyIsUnknown` | ion_processing.py:31-38 | a final component with no dot, or with only leading dots before its last dot, has an empty extension and is `unknown` |
| `FileTypes.DetectDoubleExtension` | ion_processing.py:30-38 | `a.tar.CSV` is `csv` |
| `FileTypes.DetectLeadingDot` | ion_processing.py:30-38 | `.csv` is `unknown` |
| `FileTypes.DetectDotInDirectory` | ion_processing.py:30-38 | `v1.2/data` is `unknown`: a dot in a directory is not an extension |
| `Loader.ScratchPath` | ion_processing.py:82 | `os.path.join` ends with the member path; an absolute member path is the result itself, and a relative one is placed under `extracted_data/` |
| `Loader.Read` | ion_processing.py:48-57 | a reader call succeeds exactly when the reader returns (and, for vector, `to_crs` returns); the result records the reader and its input; a raising reader gives its own error and a raising `to_crs` gives the reprojection error; only vector output is reprojected, and it ends in the target CRS |
| `Loader.LoadExtracted` | ion_processing.py:80-93 | a load from the extracted file reads the member's path under the scratch directory; no branch assigns data exactly for txt and unknown; it raises only through a reader or the reprojection |
| `Loader.LoadUnzipped` | ion_processing.py:44-62 | outside an archive every result comes from the buffer with the reader for the URL's detected type; `unknown` returns the text reader's frame or raises `ValueError`, and only `unknown` raises that |
| `Loader.LoadZipped` | ion_processing.py:65-95 | txt and unknown members never return; a frame read in place comes only from a try block that did not raise; every other frame comes from the extracted file |
| `Loader.Load` | ion_processing.py:44-95 | vector frames are reprojected into the target CRS; zipped without a member path raises `ValueError` before any reader; a payload that is not an archive raises first; once the archive opens, the route is chosen by the type detected from the member path, not from the URL |
| `Loader.ScratchAfter` | ion_processing.py:81-93 | the scratch directory is untouched unless the extraction branch runs |
| `Loader.UnzippedRouting` | ion_processing.py:44-62 | each type's reader runs on the buffer and its result is the call's: csv and txt both go to the text reader, xls, xlsx, vector and raster to their own readers; vector output is reprojected; a failing unknown becomes `ValueError` |
| `Loader.ZippedWithoutFilepath` | ion_processing.py:65-68 | zipped with no member path raises `ValueError` and leaves the scratch directory as it was, whatever the readers would do |
| `Loader.ZippedVectorRasterExtract` | ion_processing.py:78-92 | vector and raster members always make the try block raise, so they take the extraction path and are read from the extracted file |
| `Loader.ZippedTablesFallBack` | ion_processing.py:70-88 | csv, xls and xlsx members are read in place, and from the extracted file exactly when opening or reading in place raised |
| `Loader.ZippedTextNeverReturns` | ion_processing.py:70-95 | a txt or unknown member ends in `UnboundLocalError` |
| `Loader.ScratchLifecycle` | ion_processing.py:80-93 | `extracted_data` changes only in the extraction branch; there it is left behind exactly when the load from it raises, and it is gone after a successful return |
| `Loader.ZippedReadsInPlace` | ion_processing.py:65-95 | when the archive opens and a csv, xls or xlsx member opens and parses in place, the call returns that in-place frame and the scratch directory is untouched |
| `Loader.ScriptLoadReadsInPlace` | ion_processing.py:125 | the script's member `Major_Ions.csv` is detected as csv; when the archive and the member open and the member parses in place, the script's call reads it in place with the text reader and extracts nothing |
| `Loader.Workspace.LoadDataFromUrl` | ion_processing.py:44-95 | the imperative load returns exactly `Load(...)` and leaves the scratch flag at `ScratchAfter(...)` |
| `Loader.Workspace.ReadResponse` | ion_processing.py:44-62 | the unzipped branch's if-chain returns `LoadUnzipped(...)` |
| `Loader.Workspace.TryDirectRead` | ion_processing.py:70-79 | the try block raises exactly when `TryRaises` holds, and otherwise binds the in-place frame (or nothing for txt/unknown) |
| `Loader.Workspace.ExtractAndRead` | ion_processing.py:80-93 | the except block returns `LoadExtracted(...)` and leaves the scratch directory existing exactly when that raised |
| `Frames.Column` | ion_processing.py:117 | `df[name]` raises `KeyError(name)` exactly when the column is absent, and otherwise gives one value per row, in order |
| `Points.PairPoints` | ion_processing.py:117 | one point per zipped pair, in order, with x from the longitude and y from the latitude; the length is the shorter input's |
| `Points.ToCrs` | ion_processing.py:119 | reprojection keeps the rows and the number of geometries, sets the frame's CRS to the target, and maps each geometry by the transformation from the old CRS to the target |
| `Points.LatLongToPoint` | ion_processing.py:98-121 | exactly one point per row, in row order, `(longitude, latitude)` reprojected from EPSG:4326 into the target; a missing column raises `KeyError`, the longitude column's first |
| `Thresholds.Where` | ion_processing.py:132 | mask selection keeps an order-preserving subsequence, every kept row passes, every passing row is kept, and no more rows than the input |
| `Thresholds.WhereMultiplicity` | ion_processing.py:132 | each passing row is kept as many times as it occurs in the input, and no failing row is kept |
| `Thresholds.WhereWhere` | ion_processing.py:132-142 | two successive filters equal one filter by the conjunction |
| `Thresholds.WherePartition` | ion_processing.py:134-136 | the kept rows and the failing rows together number the input rows |
| `Thresholds.Filter` | ion_processing.py:132 | a missing column raises `KeyError`; otherwise the same columns with the passing rows |
| `Thresholds.ScreenCounts` | ion_processing.py:134-145 | the second stage on the first stage's output keeps the rows meeting both thresholds, and each excluded count is the number of rows failing that stage's test |
| `Thresholds.Screen` | ion_processing.py:131-148 | the final rows are those with TDS at least 1000 and charge balance below 0.1; `filtered2 <= filtered <= total`; `excluded` counts rows with TDS below 1000 and `excluded2` counts first-stage rows with charge balance at least 0.1 |

## Left out

- The HTTP fetch and its status check (lines 40-42) are network I/O. The code raises only on 4xx/5xx through `raise_for_status`, so other non-200 statuses pass through; this is not modelled.
- Reader internals (pandas, geopandas, rasterio, zipfile decoding) and the `**kwargs` and `low_memory` arguments are foreign code. Each reader is an oracle, and a loaded value records only its provenance, not its contents.
- `zip_file.extractall` is assumed to succeed and to create the directory. Its failures are not modelled, and neither is an empty archive, for which `rmtree` itself would raise.
- `os.path.abspath` normalisation of the extracted path is not modelled. The model keeps the `os.path.join` result, where an absolute member path replaces the directory.
- Closing the archive and the member by their `with` blocks is not modelled.
- Reprojection is a parameter `transform` (points) or an oracle that returns or raises (loader); its numerics are not modelled.
- `saws_crs` is never bound in the module, so as written every vector load whose reader returns, and every `lat_long_to_point` call whose columns exist, would raise `NameError`. The model takes the target CRS as configuration instead.
- Concurrent use of the fixed scratch directory by several processes is not modelled.
- Printing and the CSV export of `data.head()` (lines 126-129, 138-148) are output I/O.
- The script's own load at line 125 is not connected to the screening: `Screen` takes the loaded frame as a `Table`.
- `Lower` models ASCII lower-casing only, not Python's full Unicode `str.lower`.
- Cells are exact reals. IEEE floating point, NaN (which fails both comparisons, so a NaN row is excluded without being below the threshold), and non-numeric columns are not modelled.
- `os.path.splitext` is modelled for POSIX paths (separator `/`). The Windows variant with `\` and drive letters is not modelled.
