/** The two conversions of core.py: rebuild a physical pressure for every model
    level from the vertical coefficients, make it the lev coordinate, and resample
    onto the target pressure grid. */
module Core {
  import opened Wrappers
  import opened Arrays
  import opened Datasets
  import opened Utils

  /** The interval, in hPa, both converters use when none is given. */
  const DefaultInterval: int := 25

  // ---------------------------------------------------------------------------
  // Reading variables out of the dataset

  /** ds[name].values: a KeyError when the variable is absent. */
  function Lookup(ds: Dataset, name: string): (r: Result<Data, Error>)
    ensures r.Success? <==> name in ds.variables
    ensures r.Success? ==> r.value == ds.variables[name].data
    ensures r.Failure? ==> r.error == MissingVariable(name)
  {
    if name in ds.variables then Success(ds.variables[name].data) else Failure(MissingVariable(name))
  }

  /** A per-level coefficient, `.reshape(-1, 1, 1)` of a 1-D array. */
  function AsVector(name: string, d: Data): Result<seq<real>, Error> {
    if d.Vector? then Success(d.v) else Failure(ShapeMismatch(name))
  }

  /** A scalar such as the reference pressure p0. */
  function AsScalar(name: string, d: Data): Result<real, Error> {
    if d.Scalar? then Success(d.x) else Failure(ShapeMismatch(name))
  }

  /** A 2-D (lat, lon) field such as orog. */
  function AsGrid2(name: string, d: Data): (r: Result<seq<seq<real>>, Error>)
    ensures r.Success? ==> Rect2(r.value)
  {
    if d.Grid2? && Rect2(d.g2) then Success(d.g2) else Failure(ShapeMismatch(name))
  }

  /** A 3-D (time, lat, lon) field such as ps. */
  function AsGrid3(name: string, d: Data): (r: Result<seq<seq<seq<real>>>, Error>)
    ensures r.Success? ==> Rect3(r.value)
  {
    if d.Grid3? && Rect3(d.g3) then Success(d.g3) else Failure(ShapeMismatch(name))
  }

  // ---------------------------------------------------------------------------
  // hybrid_height_to_pressure (core.py:6-20)

  /** sigma + b * orog[np.newaxis, :, :]: the height in metres of level k above
      cell (y, x), of shape (nlev, nlat, nlon). */
  function HeightField(lev: seq<real>, b: seq<real>, orog: seq<seq<real>>): (h: seq<seq<seq<real>>>)
    requires |b| == |lev|
    ensures |h| == |lev| && forall k :: 0 <= k < |lev| ==> |h[k]| == |orog|
    ensures Rect2(orog) ==> IsGrid3(h, |lev|, |orog|, Dim1of2(orog))
    ensures forall k, y :: 0 <= k < |lev| && 0 <= y < |orog| ==> |h[k][y]| == |orog[y]|
    ensures forall k, y, x :: 0 <= k < |lev| && 0 <= y < |orog| && 0 <= x < |orog[y]| ==>
      h[k][y][x] == lev[k] + b[k] * orog[y][x]
  {
    seq(|lev|, k requires 0 <= k < |lev| =>
      seq(|orog|, y requires 0 <= y < |orog| =>
        seq(|orog[y]|, x requires 0 <= x < |orog[y]| => lev[k] + b[k] * orog[y][x])))
  }

  /** height2pressure(height_levels) (core.py:16): the pressure in Pa of level k
      over cell (y, x), with the height field's shape. */
  function HeightPressure(std: real -> real, lev: seq<real>, b: seq<real>, orog: seq<seq<real>>): (p: seq<seq<seq<real>>>)
    requires |b| == |lev|
    ensures |p| == |lev|
    ensures Rect2(orog) ==> IsGrid3(p, |lev|, |orog|, Dim1of2(orog))
    ensures forall k, y, x :: 0 <= k < |lev| && 0 <= y < |orog| && 0 <= x < |orog[y]| ==>
      |p[k]| == |orog| && |p[k][y]| == |orog[y]| && p[k][y][x] == 100.0 * std(lev[k] + b[k] * orog[y][x])
  {
    var h := HeightField(lev, b, orog);
    var p := Height2Pressure(std, h);
    assert forall k, y, x :: 0 <= k < |lev| && 0 <= y < |orog| && 0 <= x < |orog[y]| ==>
      p[k][y][x] == 100.0 * std(h[k][y][x]);
    p
  }

  /** hybrid_height_to_pressure(filename, interval) on the opened dataset. The
      per-cell pressures height2pressure(sigma + b*orog) become the lev coordinate,
      which is then resampled onto define_target_levels(interval). */
  function HybridHeightToPressure(ds: Dataset, std: real -> real, interval: int): (r: Result<Resampled, Error>)
    ensures "b" !in ds.variables ==> r == Failure(MissingVariable("b"))
    ensures "b" in ds.variables && "orog" !in ds.variables ==> r == Failure(MissingVariable("orog"))
    ensures "b" in ds.variables && "orog" in ds.variables && "lev" !in ds.variables ==> r == Failure(MissingVariable("lev"))
    ensures r.Success? ==> interval != 0 && r.value.lev == ToReals(DefineTargetLevels(interval).value)
    ensures r.Success? ==> r.value.source.variables.Keys == ds.variables.Keys - {PressureLev}
  {
    var bData :- Lookup(ds, "b");
    var orogData :- Lookup(ds, "orog");
    var levData :- Lookup(ds, "lev");
    var b :- AsVector("b", bData);
    var orog :- AsGrid2("orog", orogData);
    var lev :- AsVector("lev", levData);
    if |b| != |lev| then Failure(ShapeMismatch("b"))
    else
      match SwapLevCoordinate(ds, Grid3(HeightPressure(std, lev, b, orog)))
      case Failure(e) => Failure(e)
      case Success(swapped) =>
        var target :- DefineTargetLevels(interval);
        Success(Interp(swapped, ToReals(target)))
  }

  /** What the height conversion needs of the dataset: b, orog and lev present, b
      and lev 1-D of one length, orog a 2-D field. */
  predicate HeightInputsOk(ds: Dataset) {
    && "b" in ds.variables && "orog" in ds.variables && "lev" in ds.variables
    && ds.variables["b"].data.Vector? && ds.variables["lev"].data.Vector?
    && ds.variables["orog"].data.Grid2? && Rect2(ds.variables["orog"].data.g2)
    && |ds.variables["b"].data.v| == |ds.variables["lev"].data.v|
  }

  /** The height conversion succeeds exactly when its inputs are there and the
      interval is not zero; a missing variable is reported in the order the source
      reads b, orog and lev. */
  lemma HybridHeightOutcome(ds: Dataset, std: real -> real, interval: int)
    ensures var r := HybridHeightToPressure(ds, std, interval);
      && (r.Success? <==> HeightInputsOk(ds) && interval != 0)
      && ("b" !in ds.variables ==> r == Failure(MissingVariable("b")))
      && ("b" in ds.variables && "orog" !in ds.variables ==> r == Failure(MissingVariable("orog")))
      && ("b" in ds.variables && "orog" in ds.variables && "lev" !in ds.variables ==> r == Failure(MissingVariable("lev")))
      && (HeightInputsOk(ds) && interval == 0 ==> r == Failure(ZeroStep))
  {
    if HeightInputsOk(ds) {
      var lev, b, orog := ds.variables["lev"].data.v, ds.variables["b"].data.v, ds.variables["orog"].data.g2;
      assert SwapLevCoordinate(ds, Grid3(HeightPressure(std, lev, b, orog))).Success?;
    }
  }

  /** On success the new lev coordinate holds, for every level and cell,
      100 * std(sigma[k] + b[k]*orog[y][x]) Pa, along the old lev dimension
      (nlev entries); every other variable is kept, and the result is resampled
      onto the target grid. */
  lemma HybridHeightResult(ds: Dataset, std: real -> real, interval: int)
    requires HeightInputsOk(ds) && interval != 0
    ensures var r := HybridHeightToPressure(ds, std, interval);
      var lev, b, orog := ds.variables["lev"].data.v, ds.variables["b"].data.v, ds.variables["orog"].data.g2;
      && r.Success?
      && r.value.lev == ToReals(DefineTargetLevels(interval).value)
      && var out := r.value.source.variables;
      && "lev" in out && out["lev"].dims == ["lev"] && out["lev"].data.Grid3?
      && IsGrid3(out["lev"].data.g3, |lev|, |orog|, Dim1of2(orog))
      && (forall k, y, x :: 0 <= k < |lev| && 0 <= y < |orog| && 0 <= x < |orog[y]| ==>
            out["lev"].data.g3[k][y][x] == 100.0 * std(lev[k] + b[k] * orog[y][x]))
      && out.Keys == ds.variables.Keys - {PressureLev}
      && (forall n :: n in ds.variables && n != "lev" && n != PressureLev ==> n in out && out[n] == ds.variables[n])
  {
    var lev, b, orog := ds.variables["lev"].data.v, ds.variables["b"].data.v, ds.variables["orog"].data.g2;
    var sw := SwapLevCoordinate(ds, Grid3(HeightPressure(std, lev, b, orog)));
    assert sw.Success?;
  }

  // ---------------------------------------------------------------------------
  // hybrid_sigma_to_pressure (core.py:22-42)

  /** The two ways a dataset gives the hybrid sigma-pressure coefficients: a
      pressure offset ap per level, or a per-level a scaled by the reference
      pressure p0. */
  datatype SigmaCoefficients =
    | APForm(ap: seq<real>, b: seq<real>, ps: seq<seq<seq<real>>>)
    | RefForm(p0: real, a: seq<real>, b: seq<real>, ps: seq<seq<seq<real>>>)
  {
    /** The offset and b have one entry per level. */
    predicate Conformant() {
      match this
      case APForm(ap, b, _) => |ap| == |b|
      case RefForm(_, a, b, _) => |a| == |b|
    }

    /** The pressure offset of level k: ap[k], or a[k]*p0. */
    function Offset(k: nat): real
      requires Conformant() && k < |b|
    {
      match this
      case APForm(ap, _, _) => ap[k]
      case RefForm(p0, a, _, _) => a[k] * p0
    }
  }

  /** ap + b*ps[:, np.newaxis, :, :], or a*p0 + b*ps[:, np.newaxis, :, :]: the
      pressure of level k over cell (y, x) at time t, of shape (ntime, nlev, nlat, nlon). */
  function SigmaPressure(c: SigmaCoefficients): (p: seq<seq<seq<seq<real>>>>)
    requires c.Conformant()
    ensures |p| == |c.ps| && forall t :: 0 <= t < |p| ==> |p[t]| == |c.b|
    ensures forall t, k :: 0 <= t < |p| && 0 <= k < |c.b| ==> |p[t][k]| == |c.ps[t]|
    ensures forall t, k, y :: 0 <= t < |p| && 0 <= k < |c.b| && 0 <= y < |c.ps[t]| ==> |p[t][k][y]| == |c.ps[t][y]|
    ensures forall t, k, y, x :: 0 <= t < |c.ps| && 0 <= k < |c.b| && 0 <= y < |c.ps[t]| && 0 <= x < |c.ps[t][y]| ==>
      p[t][k][y][x] == c.Offset(k) + c.b[k] * c.ps[t][y][x]
  {
    var ps, b := c.ps, c.b;
    seq(|ps|, t requires 0 <= t < |ps| =>
      seq(|b|, k requires 0 <= k < |b| =>
        seq(|ps[t]|, y requires 0 <= y < |ps[t]| =>
          seq(|ps[t][y]|, x requires 0 <= x < |ps[t][y]| => c.Offset(k) + b[k] * ps[t][y][x]))))
  }

  /** In the ap form pressure[t][k][y][x] is ap[k] + b[k]*ps[t][y][x], in the p0
      form a[k]*p0 + b[k]*ps[t][y][x]; for a rectangular ps of shape (ntime, nlat,
      nlon) the field has shape (ntime, nlev, nlat, nlon). */
  lemma SigmaPressureField(c: SigmaCoefficients)
    requires c.Conformant()
    ensures var p := SigmaPressure(c);
      && (Rect3(c.ps) ==> IsGrid4(p, |c.ps|, |c.b|, Dim1of3(c.ps), Dim2of3(c.ps)))
      && forall t, k, y, x :: 0 <= t < |c.ps| && 0 <= k < |c.b| && 0 <= y < |c.ps[t]| && 0 <= x < |c.ps[t][y]| ==>
           p[t][k][y][x] == (if c.APForm? then c.ap[k] else c.a[k] * c.p0) + c.b[k] * c.ps[t][y][x]
  {
    var p := SigmaPressure(c);
    if Rect3(c.ps) {
      forall t | 0 <= t < |p|
        ensures IsGrid3(p[t], |c.b|, Dim1of3(c.ps), Dim2of3(c.ps))
      {
        forall k | 0 <= k < |c.b|
          ensures IsGrid2(p[t][k], Dim1of3(c.ps), Dim2of3(c.ps))
        {
          assert IsGrid2(c.ps[t], Dim1of3(c.ps), Dim2of3(c.ps));
        }
      }
    }
  }

  /** The p0 form is the ap form with ap = a*p0. */
  lemma RefFormIsAPForm(p0: real, a: seq<real>, b: seq<real>, ps: seq<seq<seq<real>>>)
    requires |a| == |b|
    ensures SigmaPressure(RefForm(p0, a, b, ps)) == SigmaPressure(APForm(seq(|a|, k requires 0 <= k < |a| => a[k] * p0), b, ps))
  {
    var p, q := SigmaPressure(RefForm(p0, a, b, ps)), SigmaPressure(APForm(seq(|a|, k requires 0 <= k < |a| => a[k] * p0), b, ps));
    forall t | 0 <= t < |ps|
      ensures p[t] == q[t]
    {
      forall k | 0 <= k < |b|
        ensures p[t][k] == q[t][k]
      {
        forall y | 0 <= y < |ps[t]|
          ensures p[t][k][y] == q[t][k][y]
        {
          assert |p[t][k][y]| == |q[t][k][y]| == |ps[t][y]|;
          forall x | 0 <= x < |ps[t][y]|
            ensures p[t][k][y][x] == q[t][k][y][x]
          {
          }
        }
      }
    }
  }

  /** The time/lat/lon values of level k of a (time, lev, lat, lon) array. */
  function LevelSlice(p: seq<seq<seq<seq<real>>>>, k: nat): seq<seq<seq<real>>>
    requires forall t :: 0 <= t < |p| ==> k < |p[t]|
  {
    seq(|p|, t requires 0 <= t < |p| => p[t][k])
  }

  /** np.mean(p, axis=(0, 2, 3)): one mean pressure per level. */
  function LevelMeans(p: seq<seq<seq<seq<real>>>>, nlev: nat): (m: seq<real>)
    requires forall t :: 0 <= t < |p| ==> |p[t]| == nlev
    ensures |m| == nlev
    ensures forall k :: 0 <= k < nlev && Count3(LevelSlice(p, k)) > 0 ==>
      m[k] * Count3(LevelSlice(p, k)) as real == Sum3(LevelSlice(p, k))
  {
    seq(nlev, k requires 0 <= k < nlev => Mean3(LevelSlice(p, k)))
  }

  /** Level k of the sigma field, over all times and cells, is the offset plus b[k]
      times ps, element by element, so it has ps's shape. */
  lemma SigmaSlice(c: SigmaCoefficients, k: nat)
    requires c.Conformant() && k < |c.b|
    ensures var s := LevelSlice(SigmaPressure(c), k);
      SameShape3(c.ps, s) && Affine3(c.ps, s, c.Offset(k), c.b[k])
  {
  }

  /** Each level's mean pressure is its offset plus b times the mean surface
      pressure: averaging commutes with the affine reconstruction. */
  lemma SigmaLevelMean(c: SigmaCoefficients, k: nat)
    requires c.Conformant() && k < |c.b| && Count3(c.ps) > 0
    ensures |LevelMeans(SigmaPressure(c), |c.b|)| == |c.b|
    ensures LevelMeans(SigmaPressure(c), |c.b|)[k] == c.Offset(k) + c.b[k] * Mean3(c.ps)
  {
    SigmaSlice(c, k);
    Mean3Affine(c.ps, LevelSlice(SigmaPressure(c), k), c.Offset(k), c.b[k]);
  }

  /** When the surface pressure is the same value everywhere and always, level k's
      mean pressure is ap[k] + b[k]*value (a[k]*p0 + b[k]*value in the p0 form). */
  lemma ConstantSurfacePressure(c: SigmaCoefficients, value: real, k: nat)
    requires c.Conformant() && k < |c.b| && Count3(c.ps) > 0
    requires forall t, y, x :: 0 <= t < |c.ps| && 0 <= y < |c.ps[t]| && 0 <= x < |c.ps[t][y]| ==> c.ps[t][y][x] == value
    ensures |LevelMeans(SigmaPressure(c), |c.b|)| == |c.b|
    ensures LevelMeans(SigmaPressure(c), |c.b|)[k] ==
      (if c.APForm? then c.ap[k] else c.a[k] * c.p0) + c.b[k] * value
  {
    SigmaLevelMean(c, k);
    Mean3Constant(c.ps, value);
  }

  /** With ap = [100000, 50000], b = [1, 0.5] and ps everywhere 101325 Pa, level 0
      averages to 201325 Pa and level 1 to 100662.5 Pa. */
  lemma ConstantSurfacePressureExample(ps: seq<seq<seq<real>>>)
    requires Count3(ps) > 0
    requires forall t, y, x :: 0 <= t < |ps| && 0 <= y < |ps[t]| && 0 <= x < |ps[t][y]| ==> ps[t][y][x] == 101325.0
    ensures var c := APForm([100000.0, 50000.0], [1.0, 0.5], ps);
      var m := LevelMeans(SigmaPressure(c), 2);
      m[0] == 201325.0 && m[1] == 100662.5
  {
    var c := APForm([100000.0, 50000.0], [1.0, 0.5], ps);
    ConstantSurfacePressure(c, 101325.0, 0);
    ConstantSurfacePressure(c, 101325.0, 1);
  }

  /** What reading the sigma coefficients needs of the dataset. With ap present:
      b and ps, ap and b 1-D of one length, ps a rectangular 3-D field. Otherwise:
      p0 a scalar, a and b 1-D of one length, and the same ps. */
  predicate SigmaInputsOk(ds: Dataset) {
    var vs := ds.variables;
    && "b" in vs && "ps" in vs
    && vs["b"].data.Vector? && vs["ps"].data.Grid3? && Rect3(vs["ps"].data.g3)
    && if "ap" in vs then
         vs["ap"].data.Vector? && |vs["ap"].data.v| == |vs["b"].data.v|
       else
         && "p0" in vs && "a" in vs
         && vs["p0"].data.Scalar? && vs["a"].data.Vector? && |vs["a"].data.v| == |vs["b"].data.v|
  }

  /** Reads the sigma coefficients, choosing the ap form exactly when ap is a
      variable of the dataset (core.py:27-37). */
  function LoadSigma(ds: Dataset): (r: Result<SigmaCoefficients, Error>)
    ensures r.Success? <==> SigmaInputsOk(ds)
    ensures r.Success? ==> (r.value.APForm? <==> "ap" in ds.variables)
    ensures r.Success? ==> r.value.Conformant() && Rect3(r.value.ps)
    ensures r.Success? && r.value.APForm? ==>
      && ds.variables["ap"].data == Vector(r.value.ap)
      && "b" in ds.variables && ds.variables["b"].data == Vector(r.value.b)
      && "ps" in ds.variables && ds.variables["ps"].data == Grid3(r.value.ps)
    ensures r.Success? && r.value.RefForm? ==>
      && "p0" in ds.variables && ds.variables["p0"].data == Scalar(r.value.p0)
      && "a" in ds.variables && ds.variables["a"].data == Vector(r.value.a)
      && "b" in ds.variables && ds.variables["b"].data == Vector(r.value.b)
      && "ps" in ds.variables && ds.variables["ps"].data == Grid3(r.value.ps)
    ensures "ap" in ds.variables && "b" !in ds.variables ==> r == Failure(MissingVariable("b"))
    ensures "ap" !in ds.variables && "p0" !in ds.variables ==> r == Failure(MissingVariable("p0"))
    ensures "ap" !in ds.variables && "p0" in ds.variables && "a" !in ds.variables ==> r == Failure(MissingVariable("a"))
    ensures "ap" !in ds.variables && "p0" in ds.variables && "a" in ds.variables && "b" !in ds.variables ==>
      r == Failure(MissingVariable("b"))
    ensures "ap" in ds.variables && "b" in ds.variables && "ps" !in ds.variables ==> r == Failure(MissingVariable("ps"))
    ensures "ap" !in ds.variables && "p0" in ds.variables && "a" in ds.variables && "b" in ds.variables && "ps" !in ds.variables ==>
      r == Failure(MissingVariable("ps"))
  {
    if "ap" in ds.variables then
      var apData := ds.variables["ap"].data;
      var bData :- Lookup(ds, "b");
      var psData :- Lookup(ds, "ps");
      var ap :- AsVector("ap", apData);
      var b :- AsVector("b", bData);
      var ps :- AsGrid3("ps", psData);
      if |ap| != |b| then Failure(ShapeMismatch("b")) else Success(APForm(ap, b, ps))
    else
      var p0Data :- Lookup(ds, "p0");
      var aData :- Lookup(ds, "a");
      var bData :- Lookup(ds, "b");
      var psData :- Lookup(ds, "ps");
      var p0 :- AsScalar("p0", p0Data);
      var a :- AsVector("a", aData);
      var b :- AsVector("b", bData);
      var ps :- AsGrid3("ps", psData);
      if |a| != |b| then Failure(ShapeMismatch("b")) else Success(RefForm(p0, a, b, ps))
  }

  /** hybrid_sigma_to_pressure(filename, interval) on the opened dataset. The
      per-level means of the reconstructed pressure become the lev coordinate,
      which is then resampled onto define_target_levels(interval). */
  function HybridSigmaToPressure(ds: Dataset, interval: int): (r: Result<Resampled, Error>)
    ensures LoadSigma(ds).Failure? ==> r == Failure(LoadSigma(ds).error)
    ensures r.Success? ==> interval != 0 && r.value.lev == ToReals(DefineTargetLevels(interval).value)
    ensures r.Success? ==> r.value.source.variables.Keys == ds.variables.Keys - {PressureLev}
  {
    var c :- LoadSigma(ds);
    if |c.b| > 0 && Count3(c.ps) == 0 then Failure(EmptyMean)
    else
      var pressure := SigmaPressure(c);
      var averaged := LevelMeans(pressure, |c.b|);
      var swapped :- SwapLevCoordinate(ds, Vector(averaged));
      var target :- DefineTargetLevels(interval);
      Success(Interp(swapped, ToReals(target)))
  }

  /** What the sigma conversion needs beyond the coefficients: a 1-D lev
      coordinate with one entry per level, and at least one cell to average over
      when there is a level. */
  predicate SigmaTargetOk(ds: Dataset, c: SigmaCoefficients) {
    && (|c.b| == 0 || Count3(c.ps) > 0)
    && "lev" in ds.variables && ds.variables["lev"].data.Vector?
    && |ds.variables["lev"].data.v| == |c.b|
  }

  /** The sigma conversion fails exactly when loading the coefficients fails (with
      the same error), the average is over no cells, the lev coordinate is missing
      or of another length, or the interval is zero. */
  lemma HybridSigmaOutcome(ds: Dataset, interval: int)
    ensures var r := HybridSigmaToPressure(ds, interval);
      var load := LoadSigma(ds);
      && (load.Failure? ==> r == Failure(load.error))
      && (r.Success? <==> load.Success? && SigmaTargetOk(ds, load.value) && interval != 0)
      && (r.Success? ==> SigmaInputsOk(ds))
      && (load.Success? && |load.value.b| > 0 && Count3(load.value.ps) == 0 ==> r == Failure(EmptyMean))
      && (load.Success? && SigmaTargetOk(ds, load.value) && interval == 0 ==> r == Failure(ZeroStep))
  {
  }

  /** On success lev is still one dimension of nlev entries without attributes;
      entry k is the mean over time, lat and lon of level k's pressure, which is
      its offset plus b[k] times the mean surface pressure; every other variable
      is kept, and the result is resampled onto the target grid. */
  lemma HybridSigmaResult(ds: Dataset, interval: int)
    requires LoadSigma(ds).Success? && SigmaTargetOk(ds, LoadSigma(ds).value) && interval != 0
    ensures var r := HybridSigmaToPressure(ds, interval);
      var c := LoadSigma(ds).value;
      && r.Success?
      && r.value.lev == ToReals(DefineTargetLevels(interval).value)
      && var out := r.value.source.variables;
      && "lev" in out && out["lev"].dims == ["lev"] && out["lev"].attrs == map[]
      && out["lev"].data.Vector? && |out["lev"].data.v| == |ds.variables["lev"].data.v|
      && (forall k :: 0 <= k < |c.b| ==>
            && out["lev"].data.v[k] == Mean3(LevelSlice(SigmaPressure(c), k))
            && out["lev"].data.v[k] == c.Offset(k) + c.b[k] * Mean3(c.ps))
      && out.Keys == ds.variables.Keys - {PressureLev}
      && (forall n :: n in ds.variables && n != "lev" && n != PressureLev ==> n in out && out[n] == ds.variables[n])
  {
    var c := LoadSigma(ds).value;
    var averaged := LevelMeans(SigmaPressure(c), |c.b|);
    forall k | 0 <= k < |c.b|
      ensures averaged[k] == c.Offset(k) + c.b[k] * Mean3(c.ps)
    {
      SigmaLevelMean(c, k);
    }
    var sw := SwapLevCoordinate(ds, Vector(averaged));
    assert sw.Success?;
  }

  // ---------------------------------------------------------------------------
  // The lev coordinate of a converted dataset

  /** Whatever the source levels, a successful conversion at the default interval
      carries the 40 levels 100000, 97500, ..., 2500 Pa. */
  lemma DefaultIntervalLevels(ds: Dataset, std: real -> real)
    ensures var h := HybridHeightToPressure(ds, std, DefaultInterval);
      h.Success? ==> |h.value.lev| == 40 && h.value.lev[0] == 100000.0 && h.value.lev[39] == 2500.0
    ensures var s := HybridSigmaToPressure(ds, DefaultInterval);
      s.Success? ==> |s.value.lev| == 40 && s.value.lev[0] == 100000.0 && s.value.lev[39] == 2500.0
  {
    if HybridHeightToPressure(ds, std, DefaultInterval).Success? {
      HybridHeightOutcome(ds, std, DefaultInterval);
      HybridHeightResult(ds, std, DefaultInterval);
    }
    if HybridSigmaToPressure(ds, DefaultInterval).Success? {
      HybridSigmaOutcome(ds, DefaultInterval);
      HybridSigmaResult(ds, DefaultInterval);
    }
    DefaultTargetLevels();
  }

  /** With b = [0, 1], lev = [0, 50] and orography 100 m everywhere, the two levels
      stand at 0 m and 150 m in every cell. */
  lemma HeightFieldExample(orog: seq<seq<real>>, y: nat, x: nat)
    requires y < |orog| && x < |orog[y]|
    requires forall i, j :: 0 <= i < |orog| && 0 <= j < |orog[i]| ==> orog[i][j] == 100.0
    ensures var h := HeightField([0.0, 50.0], [0.0, 1.0], orog);
      h[0][y][x] == 0.0 && h[1][y][x] == 150.0
  {
  }
}
