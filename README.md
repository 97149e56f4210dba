# level2pressure, modelled in Dafny

level2pressure converts atmospheric model output from model-native vertical
coordinates (hybrid height or hybrid sigma-pressure) to a fixed grid of pressure
levels. This project models its two core files as pure Dafny functions over an
in-memory dataset, and proves what they compute.

- `utils.py`
  - `identify_model_level_type`: a priority lookup over the vertical-coordinate
    names `lev`, `presnivs` and `plev`.
  - `define_target_levels`: the descending `np.arange` grid of pressures in Pa.
  - `height2pressure`: applies MetPy's standard-atmosphere conversion, which the
    model takes as a parameter `std: real -> real`, to every cell, times 100.
- `core.py`
  - `hybrid_height_to_pressure`: builds the height field `sigma[k] + b[k]*orog[y][x]`
    and converts it to pressure.
  - `hybrid_sigma_to_pressure`: builds the pressure field `ap[k] + b[k]*ps[t][y][x]`
    or `a[k]*p0 + b[k]*ps[t][y][x]` and averages it over time, latitude and
    longitude, giving one value per level.
  - Both then make the reconstructed pressure the new `lev` coordinate and
    resample onto `define_target_levels(interval)`.

Files:

- `wrappers.dfy`: `Option` and `Result`.
- `arrays.dfy`: nested-sequence arrays, their shapes, sums, element counts and
  means. It proves that the mean of an affine image is the affine image of the
  mean.
- `datasets.dfy`: the dataset value (variables with dims, data and attributes)
  and the error cases: the exceptions the source raises, plus a stand-in for
  the NaN of an empty mean. Also the `lev` coordinate swap and the
  abstract resampling step.
- `utils.dfy`: the models of `utils.py`.
- `core.dfy`: the models of `core.py`.

Numbers are Dafny `real`, which is exact arithmetic and an idealisation of the
IEEE doubles numpy computes with. The target grid is computed over `int` because
every level is a whole number of Pa. An exception the source lets propagate is
a `Failure` of one of the `Error` cases. One case stands for a value instead:

| Error | what it stands for in the source |
|---|---|
| `MissingVariable` | KeyError for an absent variable |
| `MissingAttribute` | AttributeError for an absent attribute |
| `ShapeMismatch` | a broadcasting or indexing error (core.py:15, 31, 37); it also covers some inputs numpy accepts (see "## Left out") |
| `ConflictingSizes` | xarray's error for a coordinate whose length differs from the lev dimension |
| `ZeroStep` | numpy's error for an `arange` step of zero |
| `EmptyMean` | no exception: numpy returns NaN for a mean over no cells, which reals cannot hold |

Three consequences of the code are easy to misread:

- The target grid starts at 100000 Pa, not one interval lower.
- The grid has `ceil(100000 / (interval*100))` levels, not the floor of that.
  For interval 50 the grid is 100000, 95000, ..., 5000 Pa.
- For `b = [0, 1]`, `sigma = [0, 50]` and orography 100 m, the height field is
  `[0, 150]`, not `[100, 150]`. The first level's `b` is 0, so the orography
  does not lift it.

## Model

| member | source | states |
|---|---|---|
| Utils.LevelAttributes | utils.py:12-16 | Reading `(ds.X.standard_name, ds.X.units)` succeeds exactly when both attributes exist and gives their values. A missing standard_name is reported before a missing units. |
| Utils.IdentifyModelLevelType | utils.py:6-17 | The answer is None (the source's `(None, None)`) exactly when none of lev, presnivs, plev is a variable. |
| Utils.FirstPresentIsFirst | utils.py:11-16 | Over distinct names, the priority lookup picks name i exactly when it is present and no earlier name is. |
| Utils.FirstPresentNone | utils.py:17 | The priority lookup finds nothing exactly when no name is present. |
| Utils.IdentifyIsPriorityLookup | utils.py:11-17 | The if/elif chain equals the priority lookup over [lev, presnivs, plev]. It returns the first present variable's attribute pair, or None. |
| Utils.IdentifyFirstPresentWins | utils.py:11-16 | When name i is the first present, the answer is that variable's pair, whichever later names also exist. With both attributes set it is exactly `(standard_name, units)`. |
| Utils.CeilDiv | utils.py:24 | The quotient q satisfies `(q-1)*d < n <= q*d` for n > 0, and is 0 for n <= 0. |
| Utils.Arange | utils.py:24 | `np.arange(start, stop, step)` has numpy's length `ceil((stop-start)/step)`, and element i is `start + i*step`. |
| Utils.DefineTargetLevels | utils.py:20-24 | Fails (zero step) exactly when the interval is 0. A negative interval gives an empty grid. A positive one gives `ceil(100000/(interval*100))` levels. |
| Utils.TargetLevelsShape | utils.py:24 | For interval > 0 the first level is 100000 Pa and consecutive levels differ by exactly `interval*100`. Every level is > 0, and the last level minus the step is <= 0. |
| Utils.TargetLevelsDescending | utils.py:24 | The grid is strictly descending. |
| Utils.TargetLevelAt | utils.py:24 | Level i is `100000 - i*interval*100`. |
| Utils.CountDownClosedForm | utils.py:24 | The recursive count-down from `from` by `step` has arange's length bounds and elements. |
| Utils.ArangeIsCountDown | utils.py:24 | `np.arange(from, 0, -step)` equals the independent recursive count-down. |
| Utils.TargetLevelsCountDown | utils.py:24 | The target grid is the count-down from 100000 Pa by the interval, stopping while levels are still positive. |
| Utils.TargetLevelsMembers | utils.py:24 | p is a level exactly when `0 < p <= 100000` and `100000 - p` is a multiple of `interval*100`. |
| Utils.DefaultTargetLevels | utils.py:24 | At interval 25 the grid has 40 levels, from 100000 down to 2500 Pa. |
| Utils.Height2Pressure | utils.py:26-38 | Keeps the height array's shape, and each cell is 100 times `std` of the matching height. |
| Utils.Height2PressureAntitone | utils.py:36-38 | If `std` is strictly decreasing, a higher cell gets a strictly lower pressure. |
| Arrays.Mean3 | core.py:38 | For a non-empty array, the mean times the element count is the sum of the elements. |
| Arrays.Count3OfGrid | core.py:38 | A rectangular (n0, n1, n2) array has `n0*n1*n2` elements, the divisor of the mean. |
| Arrays.Mean3Affine | core.py:38 | When every element of h is `c + d*g`, the mean of h is `c + d*mean(g)`. |
| Arrays.Mean3Constant | core.py:38 | The mean of a non-empty array whose elements all equal c is c. |
| Core.Lookup | core.py:12-14 | `ds[name].values` succeeds exactly when the variable exists and returns its data. Otherwise it is a missing-variable error naming it. |
| Core.HeightField | core.py:12-15 | The height field has shape (nlev, nlat, nlon), and `h[k][y][x] == sigma[k] + b[k]*orog[y][x]`. |
| Core.HeightPressure | core.py:15-16 | The pressure field has the height field's shape, and `p[k][y][x] == 100*std(sigma[k] + b[k]*orog[y][x])`. |
| Core.HeightFieldExample | core.py:15 | With b = [0, 1], sigma = [0, 50] and orography 100, the two levels are at 0 m and 150 m in every cell. |
| Core.HybridHeightToPressure | core.py:7-20 | A missing b, orog or lev is reported in that order. On success the interval is non-zero, the result carries the target grid as lev, and the dataset it resamples has the input's variables minus pressure_lev. |
| Core.HybridHeightOutcome | core.py:11-19 | The height conversion succeeds exactly when b, orog and lev exist with compatible shapes and the interval is non-zero. The first missing of b, orog, lev is the error reported. |
| Core.HybridHeightResult | core.py:15-19 | On success lev holds `100*std(sigma[k] + b[k]*orog[y][x])` per level and cell, along the old lev dimension. The dataset it resamples has the input's variables minus pressure_lev, every one but lev is kept unchanged, and the result carries the target grid. |
| Core.SigmaPressure | core.py:27-37 | The sigma field has nlev levels per time step and ps's cells, and is `offset(k) + b[k]*ps[t][y][x]`. |
| Core.SigmaPressureField | core.py:28-37 | In the ap form each element is `ap[k] + b[k]*ps[t][y][x]`, in the p0 form `a[k]*p0 + b[k]*ps[t][y][x]`. The shape is (ntime, nlev, nlat, nlon). |
| Core.RefFormIsAPForm | core.py:31-37 | The p0 form gives the same field as the ap form with `ap = a*p0`. |
| Core.SigmaSlice | core.py:31-37 | Level k of the field has ps's shape, and each element is the offset plus `b[k]` times ps. |
| Core.LoadSigma | core.py:27-36 | Loading succeeds exactly when the dataset holds the coefficients of one form with matching shapes: ap, b, ps when ap is present, otherwise p0, a, b, ps. The ap form is chosen exactly when ap is a variable. Coefficients are read from ap/b/ps or p0/a/b/ps. A missing variable is reported in the order the source reads them: b then ps, or p0, a, b, ps. |
| Core.LevelMeans | core.py:38 | One value per level. Entry k times the number of time/lat/lon cells of level k is their sum, so it is their mean. |
| Core.SigmaLevelMean | core.py:38 | The mean over time, lat and lon of level k is `offset(k) + b[k]*mean(ps)`. |
| Core.ConstantSurfacePressure | core.py:38 | With ps constant c, level k averages to `ap[k] + b[k]*c` (or `a[k]*p0 + b[k]*c`). |
| Core.ConstantSurfacePressureExample | core.py:38 | With ap = [100000, 50000], b = [1, 0.5] and ps = 101325, the level means are 201325 and 100662.5 Pa. |
| Core.HybridSigmaToPressure | core.py:22-42 | A failure to read the coefficients is passed on unchanged. On success the interval is non-zero, the result carries the target grid as lev, and the dataset it resamples has the input's variables minus pressure_lev. |
| Core.HybridSigmaOutcome | core.py:26-41 | The sigma conversion fails exactly when loading fails (same error), the mean is over no cells, lev is missing or of another length, or the interval is zero. A success implies the coefficient inputs are well formed. |
| Core.HybridSigmaResult | core.py:38-41 | On success lev is one dimension of nlev entries, and entry k is the mean of level k's pressure, which equals `offset(k) + b[k]*mean(ps)`. The dataset it resamples has the input's variables minus pressure_lev, every one but lev is kept unchanged, and the result carries the target grid. |
| Core.DefaultIntervalLevels | core.py:7 | A successful conversion at the default interval carries the 40 levels 100000 ... 2500 Pa. |
| Datasets.SwapLevCoordinate | core.py:17-18 | The new lev carries the given values along the lev dimension, with the same leading length as the old lev. pressure_lev is gone, and every other variable is unchanged. Succeeds exactly when lev is a 1-D variable whose length matches. |
| Datasets.Interp | core.py:19 | The resampled dataset carries exactly the target pressures as its lev coordinate and records the dataset it samples. The interpolated values are not modelled. |
| Datasets.SwapLevCoordinateTwice | core.py:39-40 | lev is replaced, never duplicated: a second swap after a first equals a single swap. |

## Left out

- File I/O is not modelled. `xr.open_dataset` (core.py:11, core.py:26, utils.py:10) is replaced by a dataset passed in as a value. `to_netcdf` and `print` in the command-line script are also left out.
- MetPy's `height_to_pressure_std` (utils.py:36-38) is foreign floating-point code. It is a parameter `std`, and its monotonicity is an assumption of `Height2PressureAntitone`, not a proved fact.
- `ds.interp` (core.py:19, core.py:41) is foreign linear interpolation. `Datasets.Interp` records only the dataset it samples and the lev coordinate it produces. The interpolated values and the out-of-range policy are not modelled.
- IEEE floating point is not modelled. `real` gives exact sums, products and means, with no rounding, NaN or infinity.
- The command-line script `cmip6_interp_to_pressure_level.py` (argument parsing and dispatch on the level type) is not part of this model. That script calls both converters without the user's interval (lines 39 and 41), so they resample at 25 hPa. It then interpolates again onto the user's grid at line 46.
- `__init__.py` only re-exports names and is not modelled.
- Datasets.SwapLevCoordinate: accepts a multi-dimensional array as the new coordinate whenever its leading length equals lev's. xarray requires one dimension there, so at core.py:17 it would reject the 3-D height-derived pressure. The model states the per-cell value the height path computes, not the library's refusal.
- Core.HybridHeightToPressure, Core.LoadSigma: `reshape(-1, 1, 1)` and numpy broadcasting accept coefficients of any rank and length-1 axes. The model takes b, lev, ap and a to be 1-D, b of the same length as the offset or lev, p0 to be 0-D, orog a rectangular 2-D field and ps a rectangular 3-D field. Any other input is a `ShapeMismatch`, including some numpy accepts, such as a p0 of shape (1,), which `a * p0` at core.py:37 broadcasts.
- Core.HybridSigmaToPressure: numpy's mean over an empty array is NaN, with a warning. Reals have no NaN, so the model reports `EmptyMean` instead. The model checks this before lev. So with an empty ps and a lev that is missing or of another length, it reports `EmptyMean`, where the source computes NaN at core.py:38 and then raises at core.py:39.
- Datasets.SwapLevCoordinate: variables that already use a `pressure_lev` dimension lose it in xarray's rename. The model drops only a variable named pressure_lev.
- Utils.IdentifyModelLevelType: the result is the attribute pair, or None. A missing `standard_name` or `units` attribute is an error, and the attribute values are strings.
- Utils.DefineTargetLevels: the grid is integer. For intervals whose step does not divide evenly, numpy's float `arange` may differ from it in the last ulp of the length computation.
