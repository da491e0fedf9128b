# Silhouette channel accumulation, modelled in Dafny

This project models two parts of a tool that works on *silhouette files*.
A silhouette file is a directory holding a manifest (`feed.json`), one
contour file per layer (`<layer_id>.json`) and an overlay of labels
(`feud.json`).

**The catalog** is the `SilhouetteFile` constructor (module `Catalog`). It:

- checks the `filename` argument;
- reads the layer files named by the manifest, in manifest order;
- keys the overlay layers and each layer's contours by `id`;
- injects the overlay labels into the nested dictionary
  `full_data[layer_id][contour_id]`;
- flattens that dictionary into a 13-column data frame.

Python dictionaries are modelled as ordered dictionaries (`OrderedDict`). A key
keeps the position of its first insertion, and a later assignment replaces its
value. `CatalogProperties` proves what the constructor promises about keys,
order, labels and rows.

**The accumulation** is the per-row loop of the `add_accum_channel` script
(modules `Engine`, `LabelRaster`, `Reductions`, `Columns`). For each row of
the data frame, in table order, it:

- reports progress every hundredth row;
- selects the pages `3·layer_id + c` (c = 0, 1, 2) of the TIFF stack;
- rasterises the contour into a 16-bit label page;
- reduces each channel page over the pixels whose label equals the contour id,
  into a sum, a mean and a spread;
- appends the results to nine columns.

At the end the nine columns are joined to the table in `columns_order`.

`Engine.Run` is proved against `Engine.RowStats`. Row `k` of its result is
input row `k` followed by `Columns.Extras` of that row's statistics. The loop
stops at the first row whose pages cannot be selected, and that row's error is
returned.

The label raster is an `array2<int>` that is written in place. `new_columns`
is a class whose map field is reassigned by `Append`. The reductions run as two
passes over the page. They are proved equal to `Reductions.StatsOf` of the
unmasked values in row-major order.

When no pixel carries the contour id, numpy's masked sum, mean and standard
deviation are all `masked`, so the model returns `None` for all three,
including the sum.

## Model

| member | source | states |
|---|---|---|
| Catalog.Load | src/silhouettefile/__init__.py:11-63 | The constructor equals `LoadSpec`. It raises `ValueError` for an argument that is neither a path nor a string. Otherwise it fails on the first manifest id without a layer file, then on the first overlay entry that cannot be applied. If nothing fails it yields `filename`, the labelled `full_data` and the data frame `Flatten(full_data)`. |
| CatalogProperties.FilenameArgument | src/silhouettefile/__init__.py:12-17 | `ValueError` is raised exactly for arguments that are neither a path nor a string, and no later failure is that error. A string behaves as the path it names. A path becomes `filename` unchanged. |
| CatalogProperties.LoadFromNeverNotAPath | src/silhouettefile/__init__.py:19-63 | Once `filename` is set, no failure is `ValueError`, and a success keeps `filename`. |
| Catalog.FirstMissing | src/silhouettefile/__init__.py:23-25 | The position of the first manifest id whose layer file is missing. Every id before it has a file. |
| Catalog.ReadLayers | src/silhouettefile/__init__.py:22-26 | Succeeds iff every manifest id has a layer file. The error names the first id that has none. On success, `layers` is the manifest ids assigned in order. |
| CatalogProperties.LayersInManifestOrder | src/silhouettefile/__init__.py:22-26 | `layers` has exactly the manifest ids as keys, each once, in order of first appearance. Each id maps to its own layer file. |
| OrderedDict.Put | src/silhouettefile/__init__.py:26 | Dictionary assignment stores the value under the key and leaves every other key unchanged. A new key goes last; an existing key keeps its place. |
| OrderedDict.FromSeqsKeys | src/silhouettefile/__init__.py:32-33 | After assigning a sequence of keys, the dictionary's keys are exactly the assigned keys. |
| OrderedDict.FromSeqsLastWins | src/silhouettefile/__init__.py:38-39 | For a repeated key, the value from its last assignment wins. |
| OrderedDict.FromSeqsOrder | src/silhouettefile/__init__.py:36 | Keys are iterated in the order of their first assignment. |
| Catalog.ReadOverlay | src/silhouettefile/__init__.py:31-33 | `feud_layers` equals the overlay layers keyed by `id` (`IndexOverlay`). |
| CatalogProperties.OverlayKeys | src/silhouettefile/__init__.py:31-33 | The keys of `feud_layers` are exactly the ids of the overlay layers. |
| CatalogProperties.OverlayLastWins | src/silhouettefile/__init__.py:32-33 | A later overlay layer with the same id replaces the earlier one as a whole. |
| Catalog.ReadContours | src/silhouettefile/__init__.py:37-39 | `layer_data` equals the layer's contours keyed by `id` (`IndexContours`). |
| CatalogProperties.ContourKeys | src/silhouettefile/__init__.py:37-39 | The keys of `layer_data` are exactly the contour ids of the layer, in order of first appearance. |
| CatalogProperties.ContoursLastWins | src/silhouettefile/__init__.py:38-39 | A later contour with the same id replaces the earlier one. Each key holds a contour whose `id` is that key. |
| Catalog.Nest | src/silhouettefile/__init__.py:35-40 | `full_data` before labelling is valid and has the layers' keys in layer order. |
| Catalog.BuildFullData | src/silhouettefile/__init__.py:35-40 | The nested loop builds exactly `Nest(layers)`. |
| Catalog.InjectLabels | src/silhouettefile/__init__.py:42-45 | The label loop equals `InjectSpec`. It stops at the first overlay entry that lacks `label`, names an unknown layer or names an unknown contour, with that error; otherwise every entry's label is applied in order. |
| CatalogProperties.RecordsUpToMembers | src/silhouettefile/__init__.py:42-43 | The label assignments are exactly the entries listed under the overlay layers processed so far. |
| CatalogProperties.InjectFailsIff | src/silhouettefile/__init__.py:42-45 | Injection succeeds iff every entry of every overlay layer has a label and names a contour of a layer in the manifest. |
| CatalogProperties.InjectFailureNamesEntry | src/silhouettefile/__init__.py:44-45 | A failed injection names an overlay entry that cannot be applied, and the error kind matches that entry's defect. |
| Catalog.FirstBad | src/silhouettefile/__init__.py:42-45 | The first assignment that cannot be applied. All earlier assignments can be applied. |
| Catalog.LastRecord | src/silhouettefile/__init__.py:45 | The deciding assignment for a contour exists iff some assignment names that layer and contour. It is one of them, and no later assignment names the same layer and contour. A later assignment overwrites an earlier one. |
| Catalog.RelabelSpec | src/silhouettefile/__init__.py:42-45 | Injection changes only `label`: the same layers and contours stay in the same order. Each label is the last assignment's label, or unchanged when nothing names the contour. |
| Catalog.RelabelNothing | src/silhouettefile/__init__.py:42-45 | With no assignments, `full_data` is unchanged. |
| Catalog.RelabelStep | src/silhouettefile/__init__.py:45 | Applying one more valid assignment equals setting that one contour's label. |
| CatalogProperties.LastEntry | src/silhouettefile/__init__.py:43-45 | An entry of one overlay layer's list with the given contour id, after which no entry has that id. If there is none, no entry has that id. |
| CatalogProperties.LastRecordIsLastEntry | src/silhouettefile/__init__.py:42-45 | The assignment that decides a contour is the last entry for it in the overlay layer kept under its layer id. There is none when the overlay keeps no such layer. |
| CatalogProperties.InjectedLabels | src/silhouettefile/__init__.py:42-45 | After injection, each contour is its original record with only `label` changed. A contour listed in its layer's overlay takes the label of its last entry there; every other contour keeps its own label or none. |
| Catalog.BuildDataFrame | src/silhouettefile/__init__.py:47-56 | The row loop builds exactly `Flatten(full_data)`. |
| CatalogProperties.FlattenLength | src/silhouettefile/__init__.py:47-56 | The data frame has one row per contour of every layer. |
| CatalogProperties.OffsetGrows | src/silhouettefile/__init__.py:48-49 | The rows of one layer come before the rows of every later layer, with no overlap. |
| CatalogProperties.FlattenLayout | src/silhouettefile/__init__.py:48-56 | Row `Offset(a)+b` is the `b`-th contour of the `a`-th layer, with its 13 fields taken from that contour. A missing label becomes `""`. |
| CatalogProperties.FlattenDistinct | src/silhouettefile/__init__.py:48-49 | No (layer id, contour id) pair appears in two rows. |
| Engine.PyIndex | scripts/add_accum_channel.py:46 | Python list indexing: an index in `[-n, n)` is valid and a negative one counts from the end. Anything else fails. |
| Engine.ChannelPlanes | scripts/add_accum_channel.py:44-47 | On success, the three selected pages are pages of the stack. |
| Engine.PlaneIndexMapping | scripts/add_accum_channel.py:44-47 | Channel `c` of layer `L` is page `3L+c`. For `L >= 0` selection succeeds iff `3L+2 < |pages|`; a negative `L` wraps around from the end and needs `3L >= -|pages|`. A failure names the layer and an out-of-range page between `3L` and `3L+2`. |
| Engine.SelectPlanes | scripts/add_accum_channel.py:44-47 | The `enumerate("rgb")` loop equals `ChannelPlanes`, including which index fails first. |
| Engine.ProgressSpec | scripts/add_accum_channel.py:37-38 | A report is made exactly at the 1-based row counts that are multiples of 100, in increasing order: one per hundred rows. |
| LabelRaster.SaturateU16 | scripts/add_accum_channel.py:50-51 | A 16-bit raster stores the colour clamped to `[0, 65535]`. |
| LabelRaster.LabelAt | scripts/add_accum_channel.py:50-53 | For a contour id in `(0, 65535]`, a pixel carries the id iff the filled polygon covers it and border removal has not erased it. An id outside 16 bits is never matched. Border pixels read 0 when border removal is on. |
| LabelRaster.LabelGrid | scripts/add_accum_channel.py:50-53 | The `h` by `w` label raster holds `LabelAt` at every pixel. |
| LabelRaster.Draw | scripts/add_accum_channel.py:51-53 | Drawing sets exactly the in-bounds pixels of the shape to the colour. No other pixel changes. |
| LabelRaster.BuildLabelRaster | scripts/add_accum_channel.py:50-53 | A fresh `h` by `w` zero raster, filled with the contour id and optionally outlined with 0, holds `LabelAt` at every pixel. |
| LabelRaster.CellsAreLabelGrid | scripts/add_accum_channel.py:50-56 | The cells of the built raster are that contour's label grid. |
| LabelRaster.BorderRemovalSubset | scripts/add_accum_channel.py:52-53 | With border removal, every pixel carrying the id also carries it without border removal. |
| LabelRaster.BorderRemovalNeverAddsPixels | scripts/add_accum_channel.py:52-56 | Border removal never increases the number of pixels a channel's statistics cover. |
| Reductions.StatsOf | scripts/add_accum_channel.py:56-59 | Sum, mean and spread are absent exactly when no pixel is unmasked. The sum is the sum of the unmasked values. |
| Reductions.MeanTimesCount | scripts/add_accum_channel.py:58 | The mean times the number of unmasked pixels is their sum. |
| Reductions.VarianceTimesCount | scripts/add_accum_channel.py:59 | The squared spread times the count is the sum of squared deviations from the mean (population variance, ddof 0). |
| Reductions.SqDevNonNegative | scripts/add_accum_channel.py:59 | A sum of squared deviations is never negative. |
| Reductions.VarianceNonNegative | scripts/add_accum_channel.py:59 | The squared spread is never negative. |
| Reductions.SumBounds | scripts/add_accum_channel.py:57 | `n` values in `[lo, hi]` sum to a value in `[n·lo, n·hi]`. |
| Reductions.MeanBounds | scripts/add_accum_channel.py:58 | The mean of values in `[lo, hi]` lies in `[lo, hi]`. |
| Reductions.ConstantStats | scripts/add_accum_channel.py:56-59 | Constant values `v` give sum `n·v`, mean `v` and spread 0. |
| Reductions.ConstantPlaneStats | scripts/add_accum_channel.py:56-59 | On a constant page with a non-empty mask, the sum is `v` times the pixel count, the mean is `v` and the spread is 0. |
| Reductions.IncludedMonotone | scripts/add_accum_channel.py:56 | A mask that lets through only pixels another mask lets through counts no more pixels. |
| Reductions.SquareScenario | scripts/add_accum_channel.py:56-59 | On the page [[0.2, 0.4], [0.6, 0.8]] with every pixel labelled, the sum is 2.0, the mean 0.5 and the variance 0.05. |
| Reductions.CountAndSum | scripts/add_accum_channel.py:57-58 | The first pass returns the count and the sum of the unmasked values. |
| Reductions.SquaredDeviations | scripts/add_accum_channel.py:59 | The second pass returns the sum of squared deviations of the unmasked values from the given mean. |
| Reductions.MaskedStats | scripts/add_accum_channel.py:56-59 | `ma.sum()`, `ma.mean()` and the square of `ma.std()` of a page masked by `tmp != cid` equal `StatsOf` of the unmasked values. |
| Columns.ColumnHeaders | scripts/add_accum_channel.py:24-29 | The nine headers in output order are `sum_r` … `tmp_std_b`, as in `columns_order`. |
| Columns.ColumnsOrderComplete | scripts/add_accum_channel.py:24-29 | `columns_order` lists each of the nine created columns exactly once. |
| Columns.Extras | scripts/add_accum_channel.py:29 | A row's nine appended values: the three sums, the three means, then the three spreads, in r, g, b order. |
| Columns.NewColumns.constructor | scripts/add_accum_channel.py:24-28 | Creates the nine columns `sum_`, `tmp_avg_` and `tmp_std_` for r, g and b, all empty. |
| Columns.NewColumns.Append | scripts/add_accum_channel.py:57-59 | Appends one channel's sum, mean and spread to that channel's three lists. No other column changes. |
| Columns.NewColumns.Table | scripts/add_accum_channel.py:61 | `pd.DataFrame(new_columns)[columns_order]`: nine columns, column `i` being `columns_order[i]`. |
| Columns.AppendKeepsHolds | scripts/add_accum_channel.py:55-59 | Appending the next channel's statistics keeps every column equal to its expected contents. |
| Columns.FinishRow | scripts/add_accum_channel.py:55-59 | After the third channel, the row counts as finished. |
| Columns.TableRows | scripts/add_accum_channel.py:61 | Each column holds one value per finished row. Row `k` across the nine columns is `Extras` of row `k`'s statistics. |
| Engine.AppendChannels | scripts/add_accum_channel.py:55-59 | The `channel_ims.items()` loop appends the three channels' statistics over this contour's pixels, in r, g, b order. |
| Engine.ProcessRow | scripts/add_accum_channel.py:44-59 | One row: succeeds iff its pages exist, and then appends `RowStats` of the row. A failed page lookup leaves the columns untouched and returns the lookup error. |
| Engine.Step | scripts/add_accum_channel.py:37-59 | One pass of the row loop: the progress report for count `i+1`, then the row. |
| Engine.Accumulate | scripts/add_accum_channel.py:33-59 | The row loop. It either finishes every row, with the columns holding all rows' statistics in order, or stops at the first failing row with its error. Reports are `Progress` of the rows started. |
| Engine.Join | scripts/add_accum_channel.py:61 | The joined table has one row per input row: that row followed by the nine table values at its position. |
| Engine.JoinedRows | scripts/add_accum_channel.py:61 | Row `k` of the joined table is input row `k` followed by `Extras` of its statistics. |
| Engine.Run | scripts/add_accum_channel.py:33-61 | Succeeds iff every row's pages exist. Then row `k` of the output is input row `k` followed by the nine statistics of its contour over the pages of its layer, and one report is made per hundred rows. Otherwise the error is that of the first failing row, and reports stop at that row's count. |

## Left out

- Reading and parsing the JSON files and the TIFF stack are not modelled. The manifest is the sequence of `layer_ids`. The layer files are a map from id to parsed file, where a missing key stands for a missing file. The overlay is its `layers` list. The pages are given as real-valued grids.
- A failure to open `feed.json` or `feud.json`, and JSON that lacks a required key (`layer_ids`, `layers`, `id`, `contours`, `centroid`, …), are not modelled. Records are typed values that always carry their required fields.
- The normalisation `/ 65535.0` of each page is not modelled: pages are taken as reals. `Reductions.MeanBounds` gives the `[0, 1]` bound for normalised pages.
- `Reductions.MaskedStats`: does not take the square root that `ma.std()` applies. The third statistic is the population variance, because Dafny's reals have no square root. The square root is monotone, so zero and the ordering of spreads carry over.
- Floating-point rounding is not modelled: the reductions use exact real arithmetic.
- The identity variance = mean of squares − square of mean is not proved. Only the definition used by the two-pass reduction is.
- `cv2.drawContours` is abstracted as the `Footprint` it rasterises: the covered interior and the one-pixel outline. How a polygon is turned into pixels is not modelled.
- The thirteen column header strings of the data frame are not modelled as values: the fields of `Catalog.Row` stand for them, in the same order.
- `json.loads(row.points)` and `json.dumps(contour["points"]).strip()` are not modelled: `points` is carried as opaque text.
- Engine.Run: requires every page to be `h` by `w`, where `im_shape` is the shape of the first page. A stack with pages of different shapes is not modelled, and neither is an empty stack, where `ims[0]` fails.
- The timing, the estimated remaining time and the printed messages are left out. A report is modelled as its row count.
- Writing the CSV, the `--overwrite` check and argument parsing are not modelled.
- Engine.Run: assumes the row order of `df.iterrows()` is the data frame's row order, and that `pd.concat(axis=1)` pairs rows by position. The frame's index is the default `0..n-1` range.
