/** The level-type lookup, the target pressure grid and the height-to-pressure
    hook of utils.py. */
module Utils {
  import opened Wrappers
  import opened Arrays
  import opened Datasets

  // ---------------------------------------------------------------------------
  // identify_model_level_type (utils.py:6-17)

  /** The vertical-coordinate variable names, in the order they are tried. */
  const LevelNames: seq<string> := ["lev", "presnivs", "plev"]

  /** (ds.X.standard_name, ds.X.units) for a variable X that is present; the
      tuple is evaluated left to right, so a missing standard_name is reported
      before a missing units attribute. */
  function LevelAttributes(ds: Dataset, name: string): (r: Result<(string, string), Error>)
    requires name in ds.variables
    ensures var attrs := ds.variables[name].attrs;
      && (r.Success? <==> "standard_name" in attrs && "units" in attrs)
      && (r.Success? ==> r.value == (attrs["standard_name"], attrs["units"]))
      && ("standard_name" !in attrs ==> r == Failure(MissingAttribute(name, "standard_name")))
      && ("standard_name" in attrs && "units" !in attrs ==> r == Failure(MissingAttribute(name, "units")))
  {
    var attrs := ds.variables[name].attrs;
    if "standard_name" !in attrs then Failure(MissingAttribute(name, "standard_name"))
    else if "units" !in attrs then Failure(MissingAttribute(name, "units"))
    else Success((attrs["standard_name"], attrs["units"]))
  }

  /** The attribute pair of a present variable as the lookup's answer. */
  function Found(ds: Dataset, name: string): (r: Result<Option<(string, string)>, Error>)
    requires name in ds.variables
    ensures r.Success? ==> r.value.Some?
  {
    match LevelAttributes(ds, name)
    case Success(pair) => Success(Some(pair))
    case Failure(e) => Failure(e)
  }

  /** identify_model_level_type on an opened dataset: the standard name and units
      of the first of lev, presnivs, plev that is a variable; None (the source's
      (None, None)) when none of them is. */
  function IdentifyModelLevelType(ds: Dataset): (r: Result<Option<(string, string)>, Error>)
    ensures r == Success(None) <==> forall i :: 0 <= i < |LevelNames| ==> LevelNames[i] !in ds.variables
  {
    assert LevelNames[0] == "lev" && LevelNames[1] == "presnivs" && LevelNames[2] == "plev";
    if "lev" in ds.variables then Found(ds, "lev")
    else if "presnivs" in ds.variables then Found(ds, "presnivs")
    else if "plev" in ds.variables then Found(ds, "plev")
    else Success(None)
  }

  /** Reference definition of a priority lookup: the first of `names` that is a
      variable of ds. */
  function FirstPresent(names: seq<string>, ds: Dataset): (r: Option<string>)
    ensures r.Some? ==> r.value in names && r.value in ds.variables
  {
    if |names| == 0 then None
    else if names[0] in ds.variables then Some(names[0])
    else FirstPresent(names[1..], ds)
  }

  /** FirstPresent picks the name at index i exactly when it is present and no
      earlier name is; it finds nothing exactly when no name is present. */
  lemma {:induction false} FirstPresentIsFirst(names: seq<string>, ds: Dataset, i: nat)
    requires i < |names|
    requires forall a, b :: 0 <= a < b < |names| ==> names[a] != names[b]
    ensures FirstPresent(names, ds) == Some(names[i]) <==>
      names[i] in ds.variables && forall j :: 0 <= j < i ==> names[j] !in ds.variables
  {
    if i == 0 {
    } else if names[0] in ds.variables {
      assert names[0] != names[i];
      assert !(forall j :: 0 <= j < i ==> names[j] !in ds.variables) by {
        assert names[0] in ds.variables;
      }
    } else {
      FirstPresentIsFirst(names[1..], ds, i - 1);
      assert forall j :: 0 < j < i ==> names[j] == names[1..][j - 1];
    }
  }

  lemma {:induction false} FirstPresentNone(names: seq<string>, ds: Dataset)
    ensures FirstPresent(names, ds) == None <==> forall j :: 0 <= j < |names| ==> names[j] !in ds.variables
  {
    if |names| > 0 {
      FirstPresentNone(names[1..], ds);
      assert forall j :: 0 < j < |names| ==> names[j] == names[1..][j - 1];
    }
  }

  /** The if/elif chain is the priority lookup over lev, presnivs, plev: its
      answer is the attribute pair of the first of them present, and (None, None)
      when none is. */
  lemma IdentifyIsPriorityLookup(ds: Dataset)
    ensures IdentifyModelLevelType(ds) ==
      match FirstPresent(LevelNames, ds)
      case None => Success(None)
      case Some(name) => Found(ds, name)
  {
    var n1, n2, n3 := LevelNames[1..], LevelNames[1..][1..], LevelNames[1..][1..][1..];
    assert n1 == ["presnivs", "plev"] && n2 == ["plev"] && n3 == [];
    assert FirstPresent(n3, ds) == None;
    assert FirstPresent(n2, ds) == if "plev" in ds.variables then Some("plev") else None;
    assert FirstPresent(n1, ds) == if "presnivs" in ds.variables then Some("presnivs") else FirstPresent(n2, ds);
    assert FirstPresent(LevelNames, ds) == if "lev" in ds.variables then Some("lev") else FirstPresent(n1, ds);
  }

  /** The first name present wins whatever later names are present, and the answer
      is exactly that variable's (standard_name, units) when it has both. */
  lemma IdentifyFirstPresentWins(ds: Dataset, i: nat)
    requires i < |LevelNames|
    requires LevelNames[i] in ds.variables
    requires forall j :: 0 <= j < i ==> LevelNames[j] !in ds.variables
    ensures IdentifyModelLevelType(ds) == Found(ds, LevelNames[i])
    ensures var attrs := ds.variables[LevelNames[i]].attrs;
      "standard_name" in attrs && "units" in attrs ==>
        IdentifyModelLevelType(ds) == Success(Some((attrs["standard_name"], attrs["units"])))
  {
    FirstPresentIsFirst(LevelNames, ds, i);
    IdentifyIsPriorityLookup(ds);
  }

  // ---------------------------------------------------------------------------
  // define_target_levels (utils.py:20-24)

  /** ceil(n / d) for d > 0, and 0 when n <= 0. */
  function CeilDiv(n: int, d: int): (q: nat)
    requires d > 0
    ensures n > 0 ==> (q - 1) * d < n <= q * d
    ensures n <= 0 ==> q == 0
  {
    if n <= 0 then 0 else (n - 1) / d + 1
  }

  /** The length numpy gives np.arange(start, stop, step): ceil((stop - start) / step),
      and 0 when that is not positive. */
  function ArangeLength(start: int, stop: int, step: int): nat
    requires step != 0
  {
    if step > 0 then CeilDiv(stop - start, step) else CeilDiv(start - stop, -step)
  }

  /** np.arange(start, stop, step) over integers: start + i*step for i below the length. */
  function Arange(start: int, stop: int, step: int): (r: seq<int>)
    requires step != 0
    ensures |r| == ArangeLength(start, stop, step)
    ensures forall i :: 0 <= i < |r| ==> r[i] == start + i * step
  {
    seq(ArangeLength(start, stop, step), i => start + i * step)
  }

  /** The top of the grid, 1000 hPa in Pa. */
  const TopLevel: int := 100000

  /** define_target_levels(interval) = np.arange(1000e2, 0, -interval * 100): the
      pressures in Pa from 1000 hPa down towards, but excluding, 0. A zero interval
      is a zero step, for which numpy raises; a negative one an empty grid. */
  function DefineTargetLevels(interval: int): (r: Result<seq<int>, Error>)
    ensures r.Failure? <==> interval == 0
    ensures r.Failure? ==> r.error == ZeroStep
    ensures interval < 0 ==> r == Success([])
    ensures interval > 0 ==> r.Success? && |r.value| == CeilDiv(TopLevel, interval * 100)
  {
    if interval == 0 then Failure(ZeroStep)
    else Success(Arange(TopLevel, 0, -interval * 100))
  }

  /** For a positive interval the grid starts at 100000 Pa, steps down by exactly
      interval*100 Pa, stays above 0 and stops at the last positive level. */
  lemma {:induction false} TargetLevelsShape(interval: int)
    requires interval > 0
    ensures var g := DefineTargetLevels(interval).value;
      var step := interval * 100;
      && |g| == CeilDiv(TopLevel, step)
      && |g| > 0 && g[0] == TopLevel
      && (forall i :: 0 <= i < |g| - 1 ==> g[i] - g[i + 1] == step)
      && (forall i :: 0 <= i < |g| ==> g[i] > 0)
      && g[|g| - 1] - step <= 0
  {
    var g := DefineTargetLevels(interval).value;
    var step := interval * 100;
    var n := |g|;
    assert (n - 1) * step < TopLevel <= n * step;
    forall i | 0 <= i < n
      ensures g[i] > 0
    {
      assert g[i] == TopLevel - i * step;
      MulMonotone(i, n - 1, step);
    }
    assert g[n - 1] - step == TopLevel - n * step;
  }

  /** The grid is strictly descending. */
  lemma TargetLevelsDescending(interval: int)
    requires interval > 0
    ensures var g := DefineTargetLevels(interval).value;
      forall i, j :: 0 <= i < j < |g| ==> g[i] > g[j]
  {
    var g := DefineTargetLevels(interval).value;
    forall i, j | 0 <= i < j < |g|
      ensures g[i] > g[j]
    {
      assert g[i] - g[j] == (j - i) * (interval * 100);
    }
  }

  /** Reference definition: count down from `from` by `step` while the level is positive. */
  function CountDown(from: int, step: int): seq<int>
    requires step > 0
    decreases from
  {
    if from <= 0 then [] else [from] + CountDown(from - step, step)
  }

  /** Multiplying by a positive step preserves order. */
  lemma {:induction false} MulMonotone(a: int, b: int, step: int)
    requires step > 0 && a <= b
    ensures a * step <= b * step
    decreases b - a
  {
    if a < b {
      MulMonotone(a, b - 1, step);
    }
  }

  /** A whole number of steps is 0 modulo the step. */
  lemma MultipleMod(i: int, step: int)
    requires step > 0
    ensures (i * step) % step == 0
  {
    var q, r := (i * step) / step, (i * step) % step;
    assert (i - q) * step == r;
    if i - q >= 1 {
      MulMonotone(1, i - q, step);
    } else if i - q <= -1 {
      MulMonotone(i - q, -1, step);
    }
  }

  /** The count-down has the length and the elements of np.arange(from, 0, -step). */
  lemma CountDownClosedForm(from: int, step: int)
    requires step > 0
    ensures var c := CountDown(from, step);
      && (from > 0 ==> |c| > 0 && (|c| - 1) * step < from <= |c| * step)
      && (from <= 0 ==> |c| == 0)
      && (forall i :: 0 <= i < |c| ==> c[i] == from - i * step)
  {
    CountDownLength(from, step);
    CountDownElements(from, step);
  }

  lemma {:induction false} CountDownLength(from: int, step: int)
    requires step > 0
    ensures var n := |CountDown(from, step)|;
      && (from > 0 ==> n > 0 && (n - 1) * step < from <= n * step)
      && (from <= 0 ==> n == 0)
    decreases from
  {
    if from > 0 {
      CountDownLength(from - step, step);
      var m := |CountDown(from - step, step)|;
      assert |CountDown(from, step)| == m + 1;
      assert (m + 1) * step == m * step + step;
    }
  }

  lemma {:induction false} CountDownElements(from: int, step: int)
    requires step > 0
    ensures forall i :: 0 <= i < |CountDown(from, step)| ==>
      CountDown(from, step)[i] == from - i * step
    decreases from
  {
    if from > 0 {
      CountDownElements(from - step, step);
      var c, rest := CountDown(from, step), CountDown(from - step, step);
      assert c == [from] + rest;
      forall i | 0 < i < |c|
        ensures c[i] == from - i * step
      {
        assert c[i] == rest[i - 1] == (from - step) - (i - 1) * step;
        assert (i - 1) * step == i * step - step;
      }
    }
  }

  /** np.arange(from, 0, -step) is the count-down from `from` by `step`. */
  lemma ArangeIsCountDown(from: int, step: int)
    requires step > 0
    ensures Arange(from, 0, -step) == CountDown(from, step)
  {
    var a, c := Arange(from, 0, -step), CountDown(from, step);
    CountDownClosedForm(from, step);
    if from > 0 {
      var n, m := |a|, |c|;
      assert (n - 1) * step < from <= n * step;
      assert (m - 1) * step < from <= m * step;
      if n < m {
        MulMonotone(n, m - 1, step);
      } else if m < n {
        MulMonotone(m, n - 1, step);
      }
    }
    assert |a| == |c|;
  }

  /** The target grid counts down from 1000 hPa by the interval until the levels
      stop being positive. */
  lemma TargetLevelsCountDown(interval: int)
    requires interval > 0
    ensures DefineTargetLevels(interval) == Success(CountDown(TopLevel, interval * 100))
  {
    ArangeIsCountDown(TopLevel, interval * 100);
  }

  /** The grid holds exactly the positive pressures up to 1000 hPa that lie a whole
      number of intervals below 1000 hPa. */
  lemma TargetLevelsMembers(interval: int, p: int)
    requires interval > 0
    ensures p in DefineTargetLevels(interval).value <==>
      0 < p <= TopLevel && (TopLevel - p) % (interval * 100) == 0
  {
    if p in DefineTargetLevels(interval).value {
      TargetLevelsMemberIsMultiple(interval, p);
    }
    if 0 < p <= TopLevel && (TopLevel - p) % (interval * 100) == 0 {
      TargetLevelsMultipleIsMember(interval, p);
    }
  }

  lemma TargetLevelsMemberIsMultiple(interval: int, p: int)
    requires interval > 0 && p in DefineTargetLevels(interval).value
    ensures 0 < p <= TopLevel && (TopLevel - p) % (interval * 100) == 0
  {
    var g := DefineTargetLevels(interval).value;
    var i :| 0 <= i < |g| && g[i] == p;
    TargetLevelsShape(interval);
    TargetLevelAt(interval, i);
    MulMonotone(0, i, interval * 100);
    MultipleMod(i, interval * 100);
  }

  lemma TargetLevelsMultipleIsMember(interval: int, p: int)
    requires interval > 0 && 0 < p <= TopLevel && (TopLevel - p) % (interval * 100) == 0
    ensures p in DefineTargetLevels(interval).value
  {
    var g := DefineTargetLevels(interval).value;
    var step := interval * 100;
    var i := (TopLevel - p) / step;
    assert i * step == TopLevel - p;
    var n := |g|;
    assert (n - 1) * step < TopLevel;
    if i >= n {
      MulMonotone(n - 1, i - 1, step);
      assert false;
    }
    TargetLevelAt(interval, i);
    assert g[i] in g;
  }

  /** Level i of the grid lies i intervals below 1000 hPa. */
  lemma TargetLevelAt(interval: int, i: nat)
    requires interval > 0 && i < |DefineTargetLevels(interval).value|
    ensures DefineTargetLevels(interval).value[i] == TopLevel - i * (interval * 100)
  {
    assert i * (-interval * 100) == -(i * (interval * 100));
  }

  /** At the default interval of 25 hPa the grid has 40 levels, from 100000 Pa
      down to 2500 Pa. */
  lemma DefaultTargetLevels()
    ensures var g := DefineTargetLevels(25).value;
      |g| == 40 && g[0] == 100000 && g[39] == 2500
  {
  }

  /** The grid as the float coordinate values numpy produces (exact, since every
      level is a whole number of Pa). */
  function ToReals(s: seq<int>): (r: seq<real>)
    ensures |r| == |s| && forall i :: 0 <= i < |s| ==> r[i] == s[i] as real
  {
    seq(|s|, i requires 0 <= i < |s| => s[i] as real)
  }

  // ---------------------------------------------------------------------------
  // height2pressure (utils.py:26-38)

  /** height2pressure(hgt) = 100 * height_to_pressure_std(hgt m).magnitude, applied
      element-wise. `std` is MetPy's standard-atmosphere conversion (metres to hPa),
      a foreign function this model takes as a parameter. */
  function Height2Pressure(std: real -> real, hgt: seq<seq<seq<real>>>): (r: seq<seq<seq<real>>>)
    ensures SameShape3(hgt, r)
    ensures forall k, y, x :: 0 <= k < |hgt| && 0 <= y < |hgt[k]| && 0 <= x < |hgt[k][y]| ==>
      r[k][y][x] == 100.0 * std(hgt[k][y][x])
  {
    seq(|hgt|, k requires 0 <= k < |hgt| =>
      seq(|hgt[k]|, y requires 0 <= y < |hgt[k]| =>
        seq(|hgt[k][y]|, x requires 0 <= x < |hgt[k][y]| => 100.0 * std(hgt[k][y][x]))))
  }

  /** If the standard atmosphere is strictly decreasing in height, so is the
      reconstructed pressure: a higher cell gets a lower pressure. */
  lemma Height2PressureAntitone(std: real -> real, hgt: seq<seq<seq<real>>>, k: nat, y: nat, x: nat, k': nat, y': nat, x': nat)
    requires forall h1: real, h2: real :: h1 < h2 ==> std(h1) > std(h2)
    requires k < |hgt| && y < |hgt[k]| && x < |hgt[k][y]|
    requires k' < |hgt| && y' < |hgt[k']| && x' < |hgt[k'][y']|
    requires hgt[k][y][x] < hgt[k'][y'][x']
    ensures Height2Pressure(std, hgt)[k][y][x] > Height2Pressure(std, hgt)[k'][y'][x']
  {
  }
}
