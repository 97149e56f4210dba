/** Numeric arrays as nested sequences of reals, and numpy's mean over them.
    Reals are exact: they idealise the float64 arithmetic of numpy. */
module Arrays {

  /** g has shape (rows, cols). */
  predicate IsGrid2(g: seq<seq<real>>, rows: nat, cols: nat) {
    |g| == rows && forall i :: 0 <= i < rows ==> |g[i]| == cols
  }

  /** g has shape (n0, n1, n2). */
  predicate IsGrid3(g: seq<seq<seq<real>>>, n0: nat, n1: nat, n2: nat) {
    |g| == n0 && forall i :: 0 <= i < n0 ==> IsGrid2(g[i], n1, n2)
  }

  /** g has shape (n0, n1, n2, n3). */
  predicate IsGrid4(g: seq<seq<seq<seq<real>>>>, n0: nat, n1: nat, n2: nat, n3: nat) {
    |g| == n0 && forall i :: 0 <= i < n0 ==> IsGrid3(g[i], n1, n2, n3)
  }

  /** The extents of a nested sequence read off its first elements, as numpy's
      `shape` would report them for a rectangular array. */
  function Dim1of2(g: seq<seq<real>>): nat {
    if |g| == 0 then 0 else |g[0]|
  }

  function Dim1of3(g: seq<seq<seq<real>>>): nat {
    if |g| == 0 then 0 else |g[0]|
  }

  function Dim2of3(g: seq<seq<seq<real>>>): nat {
    if |g| == 0 || |g[0]| == 0 then 0 else |g[0][0]|
  }

  /** The nested sequence is a rectangular 2-D (resp. 3-D) array. */
  predicate Rect2(g: seq<seq<real>>) {
    IsGrid2(g, |g|, Dim1of2(g))
  }

  predicate Rect3(g: seq<seq<seq<real>>>) {
    IsGrid3(g, |g|, Dim1of3(g), Dim2of3(g))
  }

  /** g and h have the same nested lengths. */
  predicate SameShape3(g: seq<seq<seq<real>>>, h: seq<seq<seq<real>>>) {
    && |g| == |h|
    && (forall i :: 0 <= i < |g| ==> |g[i]| == |h[i]|)
    && (forall i, j :: 0 <= i < |g| && 0 <= j < |g[i]| ==> |g[i][j]| == |h[i][j]|)
  }

  /** Every element of h is c + d times the matching element of g. */
  predicate Affine3(g: seq<seq<seq<real>>>, h: seq<seq<seq<real>>>, c: real, d: real)
    requires SameShape3(g, h)
  {
    forall i, j, k :: 0 <= i < |g| && 0 <= j < |g[i]| && 0 <= k < |g[i][j]| ==> h[i][j][k] == c + d * g[i][j][k]
  }

  function Sum(s: seq<real>): real {
    if |s| == 0 then 0.0 else s[0] + Sum(s[1..])
  }

  function Sum2(g: seq<seq<real>>): real {
    if |g| == 0 then 0.0 else Sum(g[0]) + Sum2(g[1..])
  }

  function Sum3(g: seq<seq<seq<real>>>): real {
    if |g| == 0 then 0.0 else Sum2(g[0]) + Sum3(g[1..])
  }

  /** The number of elements of a nested sequence. */
  function Count2(g: seq<seq<real>>): nat {
    if |g| == 0 then 0 else |g[0]| + Count2(g[1..])
  }

  function Count3(g: seq<seq<seq<real>>>): nat {
    if |g| == 0 then 0 else Count2(g[0]) + Count3(g[1..])
  }

  /** np.mean over all axes of a 3-D array: the sum of the elements divided by their
      number. numpy gives NaN for an array without elements; the conversion checks
      for that case before it averages, so the 0 chosen here for it is never used. */
  function Mean3(g: seq<seq<seq<real>>>): (m: real)
    ensures Count3(g) > 0 ==> m * Count3(g) as real == Sum3(g)
  {
    if Count3(g) == 0 then 0.0 else Sum3(g) / Count3(g) as real
  }

  /** The element count of a rectangular array is the product of its extents,
      so Mean3 divides by n0 * n1 * n2 as numpy does. */
  lemma {:induction false} Count3OfGrid(g: seq<seq<seq<real>>>, n0: nat, n1: nat, n2: nat)
    requires IsGrid3(g, n0, n1, n2)
    ensures Count3(g) == n0 * (n1 * n2)
  {
    if n0 > 0 {
      var cells := n1 * n2;
      Count2OfGrid(g[0], n1, n2);
      Count3OfGrid(g[1..], n0 - 1, n1, n2);
      assert Count3(g) == cells + (n0 - 1) * cells;
    }
  }

  lemma {:induction false} Count2OfGrid(g: seq<seq<real>>, rows: nat, cols: nat)
    requires IsGrid2(g, rows, cols)
    ensures Count2(g) == rows * cols
  {
    if rows > 0 {
      Count2OfGrid(g[1..], rows - 1, cols);
      assert (rows - 1) * cols + cols == rows * cols;
    }
  }

  /** The sum of n values c + d*x whose x-values sum to s. Kept as a function so
      that the products stay out of the solver's way in the inductive proofs. */
  function AffineTotal(n: real, c: real, d: real, s: real): real {
    n * c + d * s
  }

  /** Affine totals of two parts add up to the affine total of the whole. */
  lemma AffineTotalSplit(n0: real, n1: real, n: real, c: real, d: real, s0: real, s1: real, s: real)
    requires n == n0 + n1 && s == s0 + s1
    ensures AffineTotal(n0, c, d, s0) + AffineTotal(n1, c, d, s1) == AffineTotal(n, c, d, s)
  {
  }

  lemma {:induction false} SumAffine(s: seq<real>, t: seq<real>, c: real, d: real)
    requires |s| == |t|
    requires forall k :: 0 <= k < |s| ==> t[k] == c + d * s[k]
    ensures Sum(t) == AffineTotal(|s| as real, c, d, Sum(s))
  {
    if |s| > 0 {
      SumAffine(s[1..], t[1..], c, d);
      AffineTotalSplit(1.0, |s[1..]| as real, |s| as real, c, d, s[0], Sum(s[1..]), Sum(s));
    }
  }

  lemma {:induction false} Sum2Affine(g: seq<seq<real>>, h: seq<seq<real>>, c: real, d: real)
    requires |g| == |h| && forall i :: 0 <= i < |g| ==> |g[i]| == |h[i]|
    requires forall i, k :: 0 <= i < |g| && 0 <= k < |g[i]| ==> h[i][k] == c + d * g[i][k]
    ensures Count2(h) == Count2(g)
    ensures Sum2(h) == AffineTotal(Count2(g) as real, c, d, Sum2(g))
  {
    if |g| > 0 {
      SumAffine(g[0], h[0], c, d);
      Sum2Affine(g[1..], h[1..], c, d);
      AffineTotalSplit(|g[0]| as real, Count2(g[1..]) as real, Count2(g) as real, c, d, Sum(g[0]), Sum2(g[1..]), Sum2(g));
    }
  }

  lemma {:induction false} Sum3Affine(g: seq<seq<seq<real>>>, h: seq<seq<seq<real>>>, c: real, d: real)
    requires SameShape3(g, h) && Affine3(g, h, c, d)
    ensures Count3(h) == Count3(g)
    ensures Sum3(h) == AffineTotal(Count3(g) as real, c, d, Sum3(g))
  {
    if |g| > 0 {
      Sum2Affine(g[0], h[0], c, d);
      assert SameShape3(g[1..], h[1..]);
      Sum3Affine(g[1..], h[1..], c, d);
      AffineTotalSplit(Count2(g[0]) as real, Count3(g[1..]) as real, Count3(g) as real, c, d, Sum2(g[0]), Sum3(g[1..]), Sum3(g));
    }
  }

  /** Dividing an affine total by its count gives the affine image of the mean. */
  lemma AffineTotalMean(n: real, c: real, d: real, s: real)
    requires n > 0.0
    ensures AffineTotal(n, c, d, s) / n == c + d * (s / n)
  {
  }

  /** The mean commutes with an affine map: mean(c + d*g) == c + d*mean(g). */
  lemma Mean3Affine(g: seq<seq<seq<real>>>, h: seq<seq<seq<real>>>, c: real, d: real)
    requires SameShape3(g, h) && Affine3(g, h, c, d)
    requires Count3(g) > 0
    ensures Count3(h) == Count3(g)
    ensures Mean3(h) == c + d * Mean3(g)
  {
    Sum3Affine(g, h, c, d);
    AffineTotalMean(Count3(g) as real, c, d, Sum3(g));
  }

  /** The mean of an array whose elements all equal c is c. */
  lemma Mean3Constant(g: seq<seq<seq<real>>>, c: real)
    requires Count3(g) > 0
    requires forall i, j, k :: 0 <= i < |g| && 0 <= j < |g[i]| && 0 <= k < |g[i][j]| ==> g[i][j][k] == c
    ensures Mean3(g) == c
  {
    Mean3Affine(g, g, c, 0.0);
  }
}
