# Synthetic GeoTIFF terrain: a Dafny model

This project models the logic of a small terrain-raster generator and the comparator
that checks rasters against each other. The file and raster handling around that
logic is not modelled.

- **Noise field** (`noise_field.dfy`, module `NoiseField`). `GeneratePerlinNoise` fills
  a fresh `height x width` array row by row. Cell `[y, x]` is the fractal noise
  function at `(x / scale, y / scale)`, called with 6 octaves, persistence 0.5,
  lacunarity 2.0, 1024 x 1024 tiling and base 0. The noise function is a parameter.
- **Range normaliser** (`normalize.dfy`, module `Normalize`). This is the whole-array
  expression `min_h + (max_h - min_h) * (v - min) / ptp`. `min` and `ptp` are taken
  over every cell, as numpy does. It is a pure function over `seq<seq<real>>`.
  Lemmas prove that the result's minimum is exactly `min_h`, that its maximum is
  exactly `max_h`, that both values are reached by some cell, that every cell lies
  in between, and that the order of cells is kept.
- **Terrain feature carver** (`terrain_carver.dfy`, module `TerrainCarver`). This is
  `add_continuous_nodata_areas`. It works in place on an `array2<real>`, using the
  source's nested loops. The random choices are passed in as raw draws (module
  `Sampling`). `Plan` says which features a set of draws describes. The method's
  postcondition says each cell ends at its old value plus the sum of those features'
  signed deltas at its column. Lemmas bound the deltas and show the no-data sentinel
  is never produced.
- **Random draws** (`sampling.dfy`, module `Sampling`). `random.randint`,
  `random.uniform` and `random.choice` are written the way CPython defines them, as
  functions of the generator's raw output. Each function has a lemma showing that
  every value the real call can return can also come out of the model.
- **Raster comparator** (`compare_tiff.dfy`, module `CompareTiff`). This is the
  decision `compare_tiff_files` makes once both bands are read. Shapes that differ
  give 1. Otherwise the result is 1 when some `|a - b|` exceeds `threshold_cm / 100`,
  and 0 when no difference does. Lemmas prove symmetry, reflexivity, monotonicity in
  the threshold, that a difference exactly at the tolerance passes, and the
  documented scenarios.
- **Real arithmetic** (`real_arith.dfy`, module `RealArith`). Single-step facts about
  products and quotients of reals, shared by the bounds proofs of the other modules.

Where the documented behaviour and the code disagree, the model follows the code:

- The documented behaviour is that a feature count of `max_areas = 0` is forced up
  to 1. The code calls `random.randint(1, 0)`, which raises `ValueError`. `Plan` and
  `AddContinuousNodataAreas` return that error, and no cell is written.
- For a raster narrower than 4000 columns, the documented behaviour is a check before
  placement. The code raises `ValueError` at the first feature's `start_x` draw,
  before anything is written. The model returns the same error at the same point.
- For a flat noise field the documented behaviour is that the error is detected. The
  code does not check; numpy would produce NaN. The model requires a spread greater
  than zero.

## Model

| member | source | states |
|---|---|---|
| Sampling.RandInt | generate_tiff.py:23 | `randint(a, b)` returns a value exactly when `a <= b`, and that value lies in `[a, b]`; an empty range is the ValueError case |
| Sampling.RandIntCovers | generate_tiff.py:28 | every integer of a non-empty range `[a, b]` is the outcome of some draw |
| Sampling.Uniform | generate_tiff.py:34-42 | `uniform(a, b)` for a draw in `[0, 1)` lies in `[a, b]`, and strictly below `b` when `a < b` |
| Sampling.UniformCovers | generate_tiff.py:34-42 | every real in `[a, b)` is the outcome of some unit draw |
| Sampling.ChoiceCovers | generate_tiff.py:32 | `choice([True, False])` can produce both outcomes |
| NoiseField.GeneratePerlinNoise | generate_tiff.py:7-19 | the result is a fresh array with exactly `height` rows and `width` columns; cell `[y, x]` is the noise function at `(x / scale, y / scale)` with the fixed fractal parameters |
| Normalize.MinOf | generate_tiff.py:60 | `np.min` of a non-empty sequence is one of its elements and at most every element |
| Normalize.MaxOf | generate_tiff.py:60 | `np.max` of a non-empty sequence is one of its elements and at least every element |
| Normalize.Ptp | generate_tiff.py:60 | `np.ptp` is non-negative, and positive exactly when the grid is not flat |
| Normalize.NormalizeHeights | generate_tiff.py:60 | normalisation keeps the grid's shape: the same number of rows, and each row the same length |
| Normalize.RescaleEndpoints | generate_tiff.py:60 | the linear map sends the grid's minimum to `min_h` and its maximum (`min + ptp`) to `max_h` |
| Normalize.RescaleMonotone | generate_tiff.py:60 | with `min_h <= max_h` the map is order-preserving: `v <= w` implies `out(v) <= out(w)` |
| Normalize.NormalizedExtremes | generate_tiff.py:60 | for a non-flat grid, the normalised grid's minimum over all cells is exactly `min_h` and its maximum exactly `max_h` |
| Normalize.NormalizedAttainsBounds | generate_tiff.py:60 | some normalised cell equals `min_h` and some normalised cell equals `max_h` |
| Normalize.NormalizedInRange | generate_tiff.py:60 | every normalised cell lies in `[min_h, max_h]` |
| Normalize.NormalizedMonotone | generate_tiff.py:60 | if one input cell is at most another, the same holds for their normalised values |
| Normalize.GeneratorRange | generate_tiff.py:58-60 | with the generator's range 0 to 1000, the output's minimum is 0, its maximum is 1000, and every cell lies between them |
| TerrainCarver.FeatureAt | generate_tiff.py:31-44 | the kind comes from the valley/mountain coin; a valley's depth is in `[0.2, 0.5]` and each column's bottom in `[0.2, 0.4]`; a mountain's height is in `[0.5, 1.0]` and each column's peak in `[0.6, 0.8]`; the window starts where the caller says |
| TerrainCarver.Resolve | generate_tiff.py:27-29 | with `width >= 4000`, the drawn `start_x` is in `[0, width - 4000]`, so `end_x = start_x + 4000 <= width` |
| TerrainCarver.Plan | generate_tiff.py:22-29 | the draws give a plan exactly when `max_areas >= 1` and `width >= 4000`; the plan has between 1 and `max_areas` features; every window fits in the raster and every amplitude and offset lies in its drawn range |
| TerrainCarver.CarveFeature | generate_tiff.py:29-44 | after one feature, every cell `[y, x]` equals its old value plus that feature's delta at column `x`; the delta does not depend on the row, and is zero outside `[start_x, end_x)` |
| TerrainCarver.AddContinuousNodataAreas | generate_tiff.py:21-46 | it succeeds exactly when the plan exists; on ValueError no cell changes; on success every cell equals its old value plus the sum of the planned features' deltas at its column; the no-data argument is never written |
| TerrainCarver.TotalDeltaAppend | generate_tiff.py:25-46 | applying one more feature adds exactly that feature's delta to the accumulated delta of the earlier ones |
| TerrainCarver.UntouchedColumn | generate_tiff.py:35-44 | a column outside every feature's window keeps its value |
| TerrainCarver.FeatureDeltaBounds | generate_tiff.py:34-44 | for a sine factor in `[0, 1]`, inside its window a valley lowers the column by between 0.2 and 0.9, and a mountain raises it by between 0.6 and 1.8 |
| TerrainCarver.DeltaRange | generate_tiff.py:34-44 | one feature moves any column by between -0.9 and 1.8 |
| TerrainCarver.TotalDeltaRange | generate_tiff.py:25-46 | `n` features move any column by between `-0.9 n` and `1.8 n` |
| TerrainCarver.CarvedAvoidsSentinel | generate_tiff.py:21-46 | a cell that started at or above a floor ends strictly above any sentinel more than `0.9` per feature below that floor, so it never equals the sentinel |
| TerrainCarver.GeneratorAvoidsNodata | generate_tiff.py:58-64 | with heights in `[0, 1000]`, `max_areas = 8` and width at least 4000, carving succeeds, every cell stays in `[-7.2, 1014.4]`, and no cell becomes -10000 |
| CompareTiff.AnyRowExceeds | compare_tiff.py:24 | a scan over a row is true exactly when some entry exceeds the threshold |
| CompareTiff.AnyExceeds | compare_tiff.py:24 | a scan over a grid is true exactly when some cell exceeds the threshold |
| CompareTiff.CompareTiffFiles | compare_tiff.py:6-27 | the result is 0 or 1; different shapes give 1 whatever the cells hold; for equal shapes the result is 0 exactly when every `|a[i][j] - b[i][j]| <= threshold_cm / 100` |
| CompareTiff.CompareSymmetric | compare_tiff.py:21-24 | swapping the two bands gives the same verdict |
| CompareTiff.CompareReflexive | compare_tiff.py:21-27 | a band compared with itself gives 0 for every threshold `>= 0` |
| CompareTiff.ThresholdMonotone | compare_tiff.py:24 | a pair that passes at threshold `t` passes at every `t' >= t` |
| CompareTiff.ToleranceBoundary | compare_tiff.py:24-27 | one cell strictly beyond the tolerance makes the result 1; cells that all differ by exactly the tolerance give 0 |
| CompareTiff.OneCellTwoCentimetresOff | compare_tiff.py:24-27 | all-zero bands where one cell is 0.02 give 1 at `threshold_cm = 1` |
| CompareTiff.EverywhereHalfCentimetreOff | compare_tiff.py:24-27 | all zeros against all 0.005 gives 0 at `threshold_cm = 1` |
| CompareTiff.ShapeMismatchScenario | compare_tiff.py:16-18 | a 100 x 100 band against a 100 x 200 band gives 1 for any contents and any threshold |

## Left out

- Raster I/O through rasterio is not modelled. That covers opening, reading and writing files (generate_tiff.py:81-84, compare_tiff.py:8-13), the metadata dictionary, the CRS, the `from_origin` transform and the float32 cast. These are calls into a foreign library and an on-disk encoding.
- The internals of `noise.pnoise2` are not modelled: it is a foreign floating-point library. It is a function parameter of `GeneratePerlinNoise`.
- `random.*` draws and `np.sin` are not modelled as randomness or floating point. Draws are explicit inputs. The sine profile `sin(k * pi / 4000)` is an input table of 4000 values, each assumed to be in `[0, 1]`.
- IEEE floating point is not modelled. Elevations, differences and thresholds are `real`, so rounding, NaN and infinities do not occur. In particular, the order in which overlapping features are added only matters under rounding, and the model does not capture that.
- `NoiseField.GeneratePerlinNoise` requires `scale != 0` when the grid has at least one cell. For a non-empty grid the source would raise ZeroDivisionError at the first cell; for an empty grid it divides nothing and returns an empty array, which the model also does. Its only caller draws `scale` from `[50, 150]`. The default `scale=100` of `generate_perlin_noise` (generate_tiff.py:7) is not modelled: Dafny has no default arguments, so `scale` is always passed.
- `Normalize.NormalizeHeights` requires a grid that has cells and is not flat (`NonDegenerate`). It does not model two error paths of generate_tiff.py:60. On an empty grid, `np.min` raises ValueError. On a flat grid (`ptp = 0`), the source does not check, and numpy produces NaN cells.
- The normalisation lemmas assume `min_h <= max_h`, which holds for the generator's 0 to 1000. With the bounds reversed the map is order-reversing; that case is not stated.
- The orchestration in `generate_random_geotiff` is not modelled (generate_tiff.py:48-86). It samples the dimensions and the scale, chains the stages, names the output file and prints a confirmation. As written, line 50 (`2\40000`) is not valid Python, so the entry point does not parse. The module-level call (generate_tiff.py:89) is not modelled either. Only the constants this function passes on are used: the range 0 to 1000, the no-data value -10000 and `max_areas = 8`.
- The command line of the comparator is not modelled (compare_tiff.py:29-41). That covers argparse, `main`, `sys.exit` and the "dimensions do not match" message printed on line 17.
