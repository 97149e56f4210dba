/** An in-memory xarray dataset: named variables with their dimensions, values and
    attributes, and the dataset operations the conversions chain together. */
module Datasets {
  import opened Wrappers

  /** The values of a variable. A 0-D array is a Scalar, 1-, 2- and 3-D arrays
      are nested sequences; Other stands for arrays of any other rank, which the
      conversions carry along but never inspect. */
  datatype Data =
    | Scalar(x: real)
    | Vector(v: seq<real>)
    | Grid2(g2: seq<seq<real>>)
    | Grid3(g3: seq<seq<seq<real>>>)
    | Other

  /** A variable (data or coordinate): its dimension names, values and attributes. */
  datatype Variable = Variable(dims: seq<string>, data: Data, attrs: map<string, string>)

  /** `ds.variables`: every data and coordinate variable by name. */
  datatype Dataset = Dataset(variables: map<string, Variable>)

  /** The exceptions the source lets propagate, and EmptyMean, the model's stand-in
      for the NaN numpy returns as the mean of no elements. */
  datatype Error =
    | MissingVariable(name: string)                   // KeyError / ValueError for an absent variable
    | MissingAttribute(variable: string, attribute: string)  // AttributeError on ds.X.attr
    | ShapeMismatch(variable: string)                 // broadcasting or indexing failure
    | ConflictingSizes                                // new coordinate length differs from the lev dimension
    | ZeroStep                                        // np.arange with a zero step
    | EmptyMean                                       // mean over no elements (NaN in numpy)

  /** The length of the leading axis of an array, if it has one. */
  function LeadingLength(d: Data): Option<nat> {
    match d
    case Scalar(_) => None
    case Vector(v) => Some(|v|)
    case Grid2(g) => Some(|g|)
    case Grid3(g) => Some(|g|)
    case Other => None
  }

  /** The name the new coordinate is built under before it is renamed to lev. */
  const PressureLev: string := "pressure_lev"

  /** ds.assign_coords(pressure_lev=("lev", p)).swap_dims({"lev": "pressure_lev"})
        .drop_vars("lev").rename({"pressure_lev": "lev"})  (core.py:17-18, 39-40).
      The new lev carries the values p along the lev dimension and no attributes;
      the old lev coordinate is dropped, every other variable keeps its dimensions
      (lev is renamed away and back) and its values. */
  function SwapLevCoordinate(ds: Dataset, p: Data): (r: Result<Dataset, Error>)
    ensures r.Success? <==>
      && "lev" in ds.variables
      && ds.variables["lev"].data.Vector?
      && LeadingLength(p) == Some(|ds.variables["lev"].data.v|)
    ensures "lev" !in ds.variables ==> r == Failure(MissingVariable("lev"))
    ensures r.Success? ==>
      && r.value.variables.Keys == ds.variables.Keys - {PressureLev}
      && r.value.variables["lev"] == Variable(["lev"], p, map[])
      && LeadingLength(r.value.variables["lev"].data) == LeadingLength(ds.variables["lev"].data)
      && (forall n :: n in ds.variables && n != "lev" && n != PressureLev ==>
            r.value.variables[n] == ds.variables[n])
  {
    if "lev" !in ds.variables then
      Failure(MissingVariable("lev"))
    else if !ds.variables["lev"].data.Vector? then
      Failure(ShapeMismatch("lev"))
    else if LeadingLength(p) != Some(|ds.variables["lev"].data.v|) then
      Failure(ConflictingSizes)
    else
      var kept := ds.variables - {"lev", PressureLev};
      Success(Dataset(kept["lev" := Variable(["lev"], p, map[])]))
  }

  /** lev is replaced, never duplicated: swapping in a second 1-D coordinate after
      a first one is the same as swapping it in directly. */
  lemma SwapLevCoordinateTwice(ds: Dataset, p: seq<real>, q: Data)
    requires SwapLevCoordinate(ds, Vector(p)).Success?
    ensures SwapLevCoordinate(SwapLevCoordinate(ds, Vector(p)).value, q) == SwapLevCoordinate(ds, q)
  {
    var once := SwapLevCoordinate(ds, Vector(p)).value;
    if SwapLevCoordinate(ds, q).Success? {
      assert SwapLevCoordinate(once, q).value.variables == SwapLevCoordinate(ds, q).value.variables;
    }
  }

  /** ds.interp(lev=target): linear interpolation of every lev-dependent variable
      onto the pressures `target`. Interpolation itself is not modelled; the result
      records the dataset it samples and the lev coordinate it carries. */
  datatype Resampled = Resampled(source: Dataset, lev: seq<real>)

  function Interp(ds: Dataset, target: seq<real>): (r: Resampled)
    ensures r.lev == target && r.source == ds
  {
    Resampled(ds, target)
  }
}
