/** Exact real arithmetic standing in for the numpy arrays of the WENO code:
    finite sums, and the elementwise and broadcasting operations `coeffs` uses. */
module Numerics {

  /** One value per state variable. */
  type Vec = seq<real>

  /** A block of rows, each a Vec: a window of cells, or N+1 polynomial coefficients
      per state variable. */
  type Mat = seq<Vec>

  /** m has `rows` rows of `cols` entries each. */
  predicate IsMat(m: Mat, rows: nat, cols: nat)
  {
    |m| == rows && forall a :: 0 <= a < rows ==> |m[a]| == cols
  }

  function Abs(x: real): real
  {
    if x < 0.0 then -x else x
  }

  /** The sum of xs, accumulated from the front the way a running total is. */
  function Sum(xs: seq<real>): real
  {
    if |xs| == 0 then 0.0 else Sum(xs[..|xs| - 1]) + xs[|xs| - 1]
  }

  /** A sum of zeros is zero. */
  lemma {:induction false} SumZero(xs: seq<real>)
    requires forall s :: 0 <= s < |xs| ==> xs[s] == 0.0
    ensures Sum(xs) == 0.0
  {
    if |xs| > 0 {
      SumZero(xs[..|xs| - 1]);
    }
  }

  /** A running total grows by exactly the next term. */
  lemma SumStep(xs: seq<real>, i: nat)
    requires i < |xs|
    ensures Sum(xs[..i + 1]) == Sum(xs[..i]) + xs[i]
  {
    assert xs[..i + 1][..i] == xs[..i];
  }

  /** A non-empty sum of positive terms is positive. */
  lemma {:induction false} SumPositive(xs: seq<real>)
    requires |xs| > 0
    requires forall s :: 0 <= s < |xs| ==> xs[s] > 0.0
    ensures Sum(xs) > 0.0
  {
    if |xs| > 1 {
      SumPositive(xs[..|xs| - 1]);
    }
  }

  /** Sums are linear: if every term of ys is the matching term of xs times c, then so is
      the sum. */
  lemma {:induction false} SumScaled(xs: seq<real>, ys: seq<real>, c: real)
    requires |ys| == |xs|
    requires forall s :: 0 <= s < |xs| ==> ys[s] == xs[s] * c
    ensures Sum(ys) == Sum(xs) * c
  {
    if |xs| > 0 {
      var m := |xs| - 1;
      SumScaled(xs[..m], ys[..m], c);
      assert Sum(ys) == Sum(xs[..m]) * c + xs[m] * c;
    }
  }

  /** x lies between d times lo and d times hi. */
  predicate ScaledBetween(d: real, x: real, lo: real, hi: real)
  {
    d * lo <= x <= d * hi
  }

  /** Sums keep termwise bounds: if every term of ys lies between the matching term of xs
      times lo and times hi, the sum of ys lies between the sum of xs times lo and times hi. */
  lemma {:induction false} SumBetween(xs: seq<real>, ys: seq<real>, lo: real, hi: real)
    requires |ys| == |xs|
    requires forall s :: 0 <= s < |xs| ==> ScaledBetween(xs[s], ys[s], lo, hi)
    ensures ScaledBetween(Sum(xs), Sum(ys), lo, hi)
  {
    if |xs| > 0 {
      var m := |xs| - 1;
      SumBetween(xs[..m], ys[..m], lo, hi);
      assert Sum(xs) * lo == Sum(xs[..m]) * lo + xs[m] * lo;
      assert Sum(xs) * hi == Sum(xs[..m]) * hi + xs[m] * hi;
    }
  }

  /** A weighted mean stays within termwise bounds: if every term of ys lies between the matching
      positive weight in xs times lo and times hi, then Sum(ys) / Sum(xs) lies between lo and hi. */
  lemma MeanBetween(xs: seq<real>, ys: seq<real>, lo: real, hi: real)
    requires |ys| == |xs| > 0
    requires forall s :: 0 <= s < |xs| ==> xs[s] > 0.0
    requires forall s :: 0 <= s < |xs| ==> ScaledBetween(xs[s], ys[s], lo, hi)
    ensures Sum(xs) > 0.0 && lo <= Sum(ys) / Sum(xs) <= hi
  {
    SumPositive(xs);
    SumBetween(xs, ys, lo, hi);
    DivideBetween(Sum(ys), Sum(xs), lo, hi);
  }

  lemma DivideBetween(x: real, d: real, lo: real, hi: real)
    requires d > 0.0 && ScaledBetween(d, x, lo, hi)
    ensures lo <= x / d <= hi
  {
  }

  /** Dividing every term by d divides the sum by d. */
  lemma {:induction false} SumDivided(xs: seq<real>, ys: seq<real>, d: real)
    requires |ys| == |xs| && d != 0.0
    requires forall t :: 0 <= t < |xs| ==> ys[t] == xs[t] / d
    ensures Sum(ys) == Sum(xs) / d
  {
    if |xs| > 0 {
      var m := |xs| - 1;
      SumDivided(xs[..m], ys[..m], d);
      AddQuotients(Sum(xs[..m]), xs[m], d);
    }
  }

  lemma AddQuotients(x: real, y: real, d: real)
    requires d != 0.0
    ensures x / d + y / d == (x + y) / d
  {
  }

  /** Shares of a total do not change when every term is divided by the same positive number. */
  lemma DividedShares(xs: seq<real>, ys: seq<real>, d: real, s: nat)
    requires |ys| == |xs| && s < |xs| && d > 0.0 && Sum(xs) != 0.0
    requires forall t :: 0 <= t < |xs| ==> ys[t] == xs[t] / d
    ensures Sum(ys) != 0.0 && ys[s] / Sum(ys) == xs[s] / Sum(xs)
  {
    SumDivided(xs, ys, d);
    CancelDivisor(xs[s], Sum(xs), d, ys[s], Sum(ys));
  }

  lemma CancelDivisor(x: real, y: real, d: real, xd: real, yd: real)
    requires y != 0.0 && d != 0.0 && xd == x / d && yd == y / d
    ensures yd != 0.0 && xd / yd == x / y
  {
  }

  lemma DivIsMulInverse(x: real, d: real)
    requires d != 0.0
    ensures x / d == x * (1.0 / d)
  {
  }

  /** numpy `zeros(n)`. */
  function Zeros(n: nat): (z: Vec)
    ensures |z| == n && forall v :: 0 <= v < n ==> z[v] == 0.0
  {
    seq(n, v => 0.0)
  }

  /** numpy `zeros([rows, cols])`. */
  function ZeroMat(rows: nat, cols: nat): (z: Mat)
    ensures IsMat(z, rows, cols)
    ensures forall a, v :: 0 <= a < rows && 0 <= v < cols ==> z[a][v] == 0.0
  {
    seq(rows, a => Zeros(cols))
  }

  /** The in-place `x += y` on vectors. */
  function VecAdd(x: Vec, y: Vec): (z: Vec)
    requires |x| == |y|
    ensures |z| == |x| && forall v :: 0 <= v < |x| ==> z[v] == x[v] + y[v]
  {
    seq(|x|, v requires 0 <= v < |x| => x[v] + y[v])
  }

  /** The in-place `x += y` on blocks of the same shape. */
  function MatAdd(x: Mat, y: Mat, rows: nat, cols: nat): (z: Mat)
    requires IsMat(x, rows, cols) && IsMat(y, rows, cols)
    ensures IsMat(z, rows, cols)
    ensures forall a, v :: 0 <= a < rows && 0 <= v < cols ==> z[a][v] == x[a][v] + y[a][v]
  {
    seq(rows, a requires 0 <= a < rows => VecAdd(x[a], y[a]))
  }

  /** numpy `multiply(w, o)` for a block w and a vector o: o is broadcast over the rows,
      so column v of every row is multiplied by o[v]. */
  function Multiply(w: Mat, o: Vec, rows: nat): (z: Mat)
    requires IsMat(w, rows, |o|)
    ensures IsMat(z, rows, |o|)
    ensures forall a, v :: 0 <= a < rows && 0 <= v < |o| ==> z[a][v] == w[a][v] * o[v]
  {
    seq(rows, a requires 0 <= a < rows => seq(|o|, v requires 0 <= v < |o| => w[a][v] * o[v]))
  }

  /** numpy `x / d` for a block x and a vector d of nonzero entries, broadcast over the rows. */
  function Divide(x: Mat, d: Vec, rows: nat): (z: Mat)
    requires IsMat(x, rows, |d|)
    requires forall v :: 0 <= v < |d| ==> d[v] != 0.0
    ensures IsMat(z, rows, |d|)
    ensures forall a, v :: 0 <= a < rows && 0 <= v < |d| ==> z[a][v] == x[a][v] / d[v]
  {
    seq(rows, a requires 0 <= a < rows => seq(|d|, v requires 0 <= v < |d| => x[a][v] / d[v]))
  }
}
