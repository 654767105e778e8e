/** The stencil weighter `coeffs`: solve each candidate stencil for its polynomial
    coefficients, measure each candidate's smoothness, and blend the candidates with
    nonlinear weights that favour the smooth ones. */
module StencilWeighter {
  import opened Numerics
  import opened StencilSet

  /** Stands for x |-> x^rc with the positive exponent rc of the scheme: Dafny has no real
      power, so all the model knows of it is that it is positive on positive arguments. */
  type Power = f: real -> real | forall x :: 0.0 < x ==> 0.0 < f(x)
    witness (x: real) => x

  /** b's rows have the lengths of c's rows. */
  predicate SameShape(b: Mat, c: Mat)
  {
    |b| == |c| && forall a :: 0 <= a < |c| ==> |b[a]| == |c[a]|
  }

  /** Stands for the linear solve `solve(M, b)` of the foreign linear-algebra library: the
      model knows only that the solution has the shape of the right-hand side b. */
  type Solver = f: (Mat, Mat) -> Mat | forall m, b :: SameShape(f(m, b), b)
    witness (m: Mat, b: Mat) => b

  /** The scheme's fixed configuration: the options (N, n, ndim, the linear weights, eps,
      the power with exponent rc) and the precomputed matrices. */
  datatype Scheme = Scheme(
    N: nat,        // reconstruction order: N + 1 coefficients per axis
    n: nat,        // state variables per cell
    ndim: int,     // number of spatial dimensions to reconstruct
    lamC: real,    // linear weight of the centred stencils
    lamS: real,    // linear weight of the biased stencils
    eps: real,     // regularisation of the indicators
    rcPow: Power,  // x |-> x^rc
    mc: seq<Mat>,  // coefficient_matrices(): one matrix per stencil
    sigma: Mat,    // oscillation_indicator(): the (N+1) x (N+1) quadratic form
    solve: Solver)

  /** What the code assumes of its configuration: positive linear weights and
      regularisation, one coefficient matrix per stencil, a square indicator matrix. */
  predicate Valid(sch: Scheme)
  {
    sch.lamC > 0.0 && sch.lamS > 0.0 && sch.eps > 0.0 &&
    |sch.mc| == NStencils(sch.N) &&
    IsMat(sch.sigma, sch.N + 1, sch.N + 1)
  }

  /** The argument of `coeffs`: one window of N + 1 cells of n values per stencil. */
  predicate StencilInputs(sch: Scheme, uList: seq<Mat>)
  {
    |uList| == NStencils(sch.N) &&
    forall s :: 0 <= s < |uList| ==> IsMat(uList[s], sch.N + 1, sch.n)
  }

  /** `wList`: each stencil's candidate coefficients, solved with that stencil's matrix. */
  function WList(sch: Scheme, uList: seq<Mat>): (wList: seq<Mat>)
    requires Valid(sch) && StencilInputs(sch, uList)
    ensures |wList| == |uList|
    ensures forall s :: 0 <= s < |wList| ==> IsMat(wList[s], sch.N + 1, sch.n)
  {
    seq(|uList|, s requires 0 <= s < |uList| => sch.solve(sch.mc[s], uList[s]))
  }

  /** The oscillation indicator of one candidate, diag(w^T Sigma w): for each variable v,
      the quadratic form of Sigma applied to column v of w. */
  function Indicator(sigma: Mat, w: Mat, n: nat): (sig: Vec)
    requires IsMat(w, |sigma|, n) && IsMat(sigma, |sigma|, |sigma|)
    ensures |sig| == n
  {
    seq(n, v requires 0 <= v < n =>
      Sum(seq(|w|, a requires 0 <= a < |w| =>
        Sum(seq(|w|, b requires 0 <= b < |w| => w[a][v] * sigma[a][b] * w[b][v])))))
  }

  /** A candidate whose coefficients of variable v all vanish is perfectly smooth in v: its
      indicator for v is zero, whatever Sigma. */
  lemma IndicatorOfZeroColumn(sigma: Mat, w: Mat, n: nat, v: nat)
    requires IsMat(w, |sigma|, n) && IsMat(sigma, |sigma|, |sigma|) && v < n
    requires forall a :: 0 <= a < |w| ==> w[a][v] == 0.0
    ensures Indicator(sigma, w, n)[v] == 0.0
  {
    var rowSums := seq(|w|, a requires 0 <= a < |w| =>
      Sum(seq(|w|, b requires 0 <= b < |w| => w[a][v] * sigma[a][b] * w[b][v])));
    forall a | 0 <= a < |w| ensures rowSums[a] == 0.0 {
      SumZero(seq(|w|, b requires 0 <= b < |w| => w[a][v] * sigma[a][b] * w[b][v]));
    }
    SumZero(rowSums);
  }

  /** `σList`: the indicator of every candidate. */
  function SigmaList(sch: Scheme, wList: seq<Mat>): (sigmaList: seq<Vec>)
    requires Valid(sch)
    requires forall s :: 0 <= s < |wList| ==> IsMat(wList[s], sch.N + 1, sch.n)
    ensures |sigmaList| == |wList|
    ensures forall s :: 0 <= s < |wList| ==> |sigmaList[s]| == sch.n
  {
    seq(|wList|, s requires 0 <= s < |wList| => Indicator(sch.sigma, wList[s], sch.n))
  }

  /** The unnormalised nonlinear weight of stencil s for a variable with indicator sig:
      lamList[s] / (|sig| + ε)^rc. It is strictly positive. */
  function Omega(sch: Scheme, s: nat, sig: real): (omega: real)
    requires Valid(sch) && s < NStencils(sch.N)
    ensures omega > 0.0
  {
    var lam := LamList(sch.N, sch.lamC, sch.lamS)[s];
    var denominator := sch.rcPow(Abs(sig) + sch.eps);
    PositiveQuotient(lam, denominator);
    lam / denominator
  }

  lemma PositiveQuotient(x: real, y: real)
    requires x > 0.0 && y > 0.0
    ensures x / y > 0.0
  {
  }

  /** `oList`: the weight of every stencil s and variable v. */
  function OList(sch: Scheme, sigmaList: seq<Vec>): (oList: seq<Vec>)
    requires Valid(sch) && |sigmaList| == NStencils(sch.N)
    ensures |oList| == |sigmaList|
    ensures forall s :: 0 <= s < |oList| ==> |oList[s]| == |sigmaList[s]|
    ensures forall s, v :: 0 <= s < |oList| && 0 <= v < |oList[s]| ==>
      oList[s][v] == Omega(sch, s, sigmaList[s][v])
  {
    seq(|sigmaList|, s requires 0 <= s < |sigmaList| =>
      seq(|sigmaList[s]|, v requires 0 <= v < |sigmaList[s]| => Omega(sch, s, sigmaList[s][v])))
  }

  /** Candidates ready to blend: as many weight vectors as coefficient blocks, every block of
      shape rows x n, every weight positive. */
  predicate Candidates(wList: seq<Mat>, oList: seq<Vec>, rows: nat, n: nat)
  {
    |wList| == |oList| > 0 &&
    (forall s :: 0 <= s < |wList| ==> IsMat(wList[s], rows, n)) &&
    (forall s :: 0 <= s < |oList| ==> |oList[s]| == n) &&
    (forall s, v :: 0 <= s < |oList| && 0 <= v < n ==> oList[s][v] > 0.0)
  }

  /** Every stencil has a positive weight for variable v. */
  predicate PositiveColumn(oList: seq<Vec>, v: nat)
  {
    |oList| > 0 && forall s :: 0 <= s < |oList| ==> v < |oList[s]| && oList[s][v] > 0.0
  }

  /** The weights of every stencil for variable v. */
  function Column(oList: seq<Vec>, v: nat): (col: seq<real>)
    requires forall s :: 0 <= s < |oList| ==> v < |oList[s]|
    ensures |col| == |oList| && forall s :: 0 <= s < |oList| ==> col[s] == oList[s][v]
  {
    seq(|oList|, s requires 0 <= s < |oList| => oList[s][v])
  }

  /** `oSum[v]`, the total weight of variable v; positive, so the final division is defined. */
  function WeightSum(oList: seq<Vec>, v: nat): (total: real)
    requires PositiveColumn(oList, v)
    ensures total > 0.0
  {
    SumPositive(Column(oList, v));
    Sum(Column(oList, v))
  }

  /** The weighted coefficient a of variable v, stencil by stencil: the terms of `numerator[a][v]`. */
  function Terms(wList: seq<Mat>, oList: seq<Vec>, rows: nat, n: nat, a: nat, v: nat): (t: seq<real>)
    requires Candidates(wList, oList, rows, n) && a < rows && v < n
    ensures |t| == |wList|
    ensures forall s :: 0 <= s < |wList| ==> t[s] == wList[s][a][v] * oList[s][v]
  {
    seq(|wList|, s requires 0 <= s < |wList| => wList[s][a][v] * oList[s][v])
  }

  /** The blend `numerator / oSum`: coefficient a of variable v is the sum of the weighted
      candidates' coefficients divided by the total weight of v. */
  function Blend(wList: seq<Mat>, oList: seq<Vec>, rows: nat, n: nat): (r: Mat)
    requires Candidates(wList, oList, rows, n)
    ensures IsMat(r, rows, n)
  {
    seq(rows, a requires 0 <= a < rows =>
      seq(n, v requires 0 <= v < n =>
        Sum(Terms(wList, oList, rows, n, a, v)) / WeightSum(oList, v)))
  }

  /** The weights of `coeffs(uList)`: positive, one per stencil and variable. */
  function WeightsOf(sch: Scheme, uList: seq<Mat>): (oList: seq<Vec>)
    requires Valid(sch) && StencilInputs(sch, uList)
    ensures Candidates(WList(sch, uList), oList, sch.N + 1, sch.n)
  {
    OList(sch, SigmaList(sch, WList(sch, uList)))
  }

  /** What `coeffs(uList)` returns. */
  function CoeffsOf(sch: Scheme, uList: seq<Mat>): (r: Mat)
    requires Valid(sch) && StencilInputs(sch, uList)
    ensures IsMat(r, sch.N + 1, sch.n)
  {
    Blend(WList(sch, uList), WeightsOf(sch, uList), sch.N + 1, sch.n)
  }

  /** `coeffs`: the candidates and their weights by comprehension, then the running totals
      `oSum` and `numerator` accumulated stencil by stencil, then one division. */
  method Coeffs(sch: Scheme, uList: seq<Mat>) returns (r: Mat)
    requires Valid(sch) && StencilInputs(sch, uList)
    ensures r == CoeffsOf(sch, uList)
  {
    var rows, n := sch.N + 1, sch.n;
    var wList := WList(sch, uList);
    var sigmaList := SigmaList(sch, wList);
    var oList := OList(sch, sigmaList);
    assert Candidates(wList, oList, rows, n) by {
      assert oList == WeightsOf(sch, uList);
    }
    var oSum, numerator := Accumulate(wList, oList, rows, n);
    AccumulatedBlend(wList, oList, rows, n, oSum, numerator);
    r := Divide(numerator, oSum, rows);
  }

  /** The loop of `coeffs`: `oSum += oList[i]` and `numerator += multiply(wList[i], oList[i])`
      for every stencil i, starting from zeros. */
  method Accumulate(wList: seq<Mat>, oList: seq<Vec>, rows: nat, n: nat) returns (oSum: Vec, numerator: Mat)
    requires Candidates(wList, oList, rows, n)
    ensures Accumulated(wList, oList, rows, n, |wList|, oSum, numerator)
  {
    oSum := Zeros(n);
    numerator := ZeroMat(rows, n);
    for i := 0 to |wList|
      invariant Accumulated(wList, oList, rows, n, i, oSum, numerator)
    {
      AccumulateStep(wList, oList, rows, n, i, oSum, numerator);
      oSum := VecAdd(oSum, oList[i]);
      numerator := MatAdd(numerator, Multiply(wList[i], oList[i], rows), rows, n);
    }
  }

  /** The loop invariant of `coeffs`: after i stencils, `oSum` holds the first i weights of every
      variable summed, and `numerator` the first i weighted candidates summed. */
  ghost predicate Accumulated(wList: seq<Mat>, oList: seq<Vec>, rows: nat, n: nat, i: nat, oSum: Vec, numerator: Mat)
  {
    Candidates(wList, oList, rows, n) && i <= |wList| &&
    |oSum| == n && IsMat(numerator, rows, n) &&
    (forall v :: 0 <= v < n ==> oSum[v] == Sum(Column(oList, v)[..i])) &&
    (forall a, v :: 0 <= a < rows && 0 <= v < n ==>
      numerator[a][v] == Sum(Terms(wList, oList, rows, n, a, v)[..i]))
  }

  /** One pass of the loop of `coeffs` keeps the invariant. */
  lemma AccumulateStep(wList: seq<Mat>, oList: seq<Vec>, rows: nat, n: nat, i: nat, oSum: Vec, numerator: Mat)
    requires Accumulated(wList, oList, rows, n, i, oSum, numerator) && i < |wList|
    ensures Accumulated(wList, oList, rows, n, i + 1, VecAdd(oSum, oList[i]),
                        MatAdd(numerator, Multiply(wList[i], oList[i], rows), rows, n))
  {
    forall v | 0 <= v < n ensures Sum(Column(oList, v)[..i + 1]) == oSum[v] + oList[i][v] {
      SumStep(Column(oList, v), i);
    }
    forall a, v | 0 <= a < rows && 0 <= v < n
      ensures Sum(Terms(wList, oList, rows, n, a, v)[..i + 1]) == numerator[a][v] + wList[i][a][v] * oList[i][v]
    {
      SumStep(Terms(wList, oList, rows, n, a, v), i);
    }
  }

  /** Once every stencil is accumulated, `numerator / oSum` is the blend. */
  lemma AccumulatedBlend(wList: seq<Mat>, oList: seq<Vec>, rows: nat, n: nat, oSum: Vec, numerator: Mat)
    requires Accumulated(wList, oList, rows, n, |wList|, oSum, numerator)
    ensures forall v :: 0 <= v < |oSum| ==> oSum[v] != 0.0
    ensures Divide(numerator, oSum, rows) == Blend(wList, oList, rows, n)
  {
    forall v | 0 <= v < n ensures oSum[v] == WeightSum(oList, v) {
      assert Column(oList, v)[..|wList|] == Column(oList, v);
    }
    var r := Divide(numerator, oSum, rows);
    var spec := Blend(wList, oList, rows, n);
    forall a | 0 <= a < rows ensures r[a] == spec[a] {
      forall v | 0 <= v < n ensures r[a][v] == spec[a][v] {
        assert Column(oList, v)[..|wList|] == Column(oList, v);
        assert Terms(wList, oList, rows, n, a, v)[..|wList|] == Terms(wList, oList, rows, n, a, v);
        BlendEntry(wList, oList, rows, n, a, v);
      }
    }
  }

  // ---------------------------------------------------------------------------------------
  // What the blend promises.

  /** One coefficient of the blend: the weighted sum of the candidates over the total weight. */
  lemma BlendEntry(wList: seq<Mat>, oList: seq<Vec>, rows: nat, n: nat, a: nat, v: nat)
    requires Candidates(wList, oList, rows, n) && a < rows && v < n
    ensures Blend(wList, oList, rows, n)[a][v] == Sum(Terms(wList, oList, rows, n, a, v)) / WeightSum(oList, v)
  {
  }

  /** The weights divided by their total: the normalised weights of variable v. */
  function Normalised(oList: seq<Vec>, v: nat): (nw: seq<real>)
    requires PositiveColumn(oList, v)
    ensures |nw| == |oList|
    ensures forall s :: 0 <= s < |oList| ==> nw[s] == oList[s][v] / WeightSum(oList, v)
  {
    seq(|oList|, s requires 0 <= s < |oList| => oList[s][v] / WeightSum(oList, v))
  }

  /** The candidates' coefficient a of variable v, each times its weight in `weights`. */
  function Weighted(weights: seq<real>, wList: seq<Mat>, a: nat, v: nat): (ts: seq<real>)
    requires |weights| == |wList|
    requires forall s :: 0 <= s < |wList| ==> a < |wList[s]| && v < |wList[s][a]|
    ensures |ts| == |wList| && forall s :: 0 <= s < |wList| ==> ts[s] == weights[s] * wList[s][a][v]
  {
    seq(|wList|, s requires 0 <= s < |wList| => weights[s] * wList[s][a][v])
  }

  /** The combination of the candidates' coefficient a of variable v with the weights `weights`. */
  function Combination(weights: seq<real>, wList: seq<Mat>, a: nat, v: nat): real
    requires |weights| == |wList|
    requires forall s :: 0 <= s < |wList| ==> a < |wList[s]| && v < |wList[s][a]|
  {
    Sum(Weighted(weights, wList, a, v))
  }

  /** The blend is a convex combination of the candidates: per variable, the normalised weights
      are positive and sum to 1, and every coefficient of the blend is the combination of the
      candidates' coefficients with those weights. */
  lemma BlendIsConvex(wList: seq<Mat>, oList: seq<Vec>, rows: nat, n: nat, a: nat, v: nat)
    requires Candidates(wList, oList, rows, n) && a < rows && v < n
    ensures forall s :: 0 <= s < |oList| ==> Normalised(oList, v)[s] > 0.0
    ensures Sum(Normalised(oList, v)) == 1.0
    ensures Blend(wList, oList, rows, n)[a][v] ==
            Combination(Normalised(oList, v), wList, a, v)
  {
    NormalisedIsDistribution(oList, v);
    BlendIsCombination(wList, oList, rows, n, a, v);
  }

  /** The normalised weights of variable v are positive and sum to 1. */
  lemma NormalisedIsDistribution(oList: seq<Vec>, v: nat)
    requires PositiveColumn(oList, v)
    ensures forall s :: 0 <= s < |oList| ==> Normalised(oList, v)[s] > 0.0
    ensures Sum(Normalised(oList, v)) == 1.0
  {
    var total := WeightSum(oList, v);
    var col := Column(oList, v);
    var nw := Normalised(oList, v);
    forall s | 0 <= s < |oList| ensures nw[s] == col[s] * (1.0 / total) && nw[s] > 0.0 {
      PositiveQuotient(oList[s][v], total);
      DivIsMulInverse(oList[s][v], total);
    }
    SumScaled(col, nw, 1.0 / total);
    InverseCancels(total);
  }

  lemma InverseCancels(d: real)
    requires d != 0.0
    ensures d * (1.0 / d) == 1.0
  {
  }

  /** Every coefficient of the blend is the combination of the candidates' coefficients with the
      normalised weights. */
  lemma BlendIsCombination(wList: seq<Mat>, oList: seq<Vec>, rows: nat, n: nat, a: nat, v: nat)
    requires Candidates(wList, oList, rows, n) && a < rows && v < n
    ensures Blend(wList, oList, rows, n)[a][v] ==
            Combination(Normalised(oList, v), wList, a, v)
  {
    var total := WeightSum(oList, v);
    var nw := Normalised(oList, v);
    var terms := Terms(wList, oList, rows, n, a, v);
    var combined := Weighted(nw, wList, a, v);
    forall s | 0 <= s < |wList| ensures combined[s] == terms[s] / total {
      assert combined[s] == (oList[s][v] / total) * wList[s][a][v];
      assert terms[s] == wList[s][a][v] * oList[s][v];
      WeightedTerm(oList[s][v], total, wList[s][a][v]);
    }
    SumDivided(terms, combined, total);
    BlendEntry(wList, oList, rows, n, a, v);
  }

  lemma WeightedTerm(o: real, d: real, w: real)
    requires d != 0.0
    ensures (o / d) * w == (w * o) / d
  {
  }

  /** If every stencil yields the same candidate w, the blend is w, whatever the weights. */
  lemma BlendReproduces(wList: seq<Mat>, oList: seq<Vec>, rows: nat, n: nat, w: Mat)
    requires Candidates(wList, oList, rows, n)
    requires forall s :: 0 <= s < |wList| ==> wList[s] == w
    ensures Blend(wList, oList, rows, n) == w
  {
    var r := Blend(wList, oList, rows, n);
    assert wList[0] == w;
    forall a | 0 <= a < rows ensures r[a] == w[a] {
      forall v | 0 <= v < n ensures r[a][v] == w[a][v] {
        BlendEntryReproduces(wList, oList, rows, n, w, a, v);
      }
    }
  }

  lemma BlendEntryReproduces(wList: seq<Mat>, oList: seq<Vec>, rows: nat, n: nat, w: Mat, a: nat, v: nat)
    requires Candidates(wList, oList, rows, n) && a < rows && v < n
    requires forall s :: 0 <= s < |wList| ==> wList[s] == w
    ensures Blend(wList, oList, rows, n)[a][v] == wList[0][a][v]
  {
    var c := wList[0][a][v];
    var total := WeightSum(oList, v);
    var col := Column(oList, v);
    var terms := Terms(wList, oList, rows, n, a, v);
    forall s | 0 <= s < |wList| ensures terms[s] == col[s] * c {
      assert wList[s][a][v] == c;
    }
    SumScaled(col, terms, c);
    BlendEntry(wList, oList, rows, n, a, v);
    MulDivCancel(total, c);
  }

  lemma MulDivCancel(d: real, c: real)
    requires d != 0.0
    ensures (d * c) / d == c
  {
  }

  /** The blend creates no new extrema: a coefficient that lies between lo and hi in every
      candidate lies between lo and hi in the blend. */
  lemma BlendBounded(wList: seq<Mat>, oList: seq<Vec>, rows: nat, n: nat, a: nat, v: nat, lo: real, hi: real)
    requires Candidates(wList, oList, rows, n) && a < rows && v < n
    requires forall s :: 0 <= s < |wList| ==> lo <= wList[s][a][v] <= hi
    ensures lo <= Blend(wList, oList, rows, n)[a][v] <= hi
  {
    var total := WeightSum(oList, v);
    var col := Column(oList, v);
    var terms := Terms(wList, oList, rows, n, a, v);
    forall s | 0 <= s < |wList| ensures ScaledBetween(col[s], terms[s], lo, hi) {
      assert terms[s] == wList[s][a][v] * col[s];
      ScaleBetween(col[s], wList[s][a][v], lo, hi);
    }
    MeanBetween(col, terms, lo, hi);
    BlendEntry(wList, oList, rows, n, a, v);
  }

  lemma ScaleBetween(c: real, x: real, lo: real, hi: real)
    requires c > 0.0 && lo <= x <= hi
    ensures ScaledBetween(c, x * c, lo, hi)
  {
  }


  /** When every stencil has the same indicator for variable v, the normalised nonlinear weights
      of v are the linear weights in proportion, lamList[s] / (sum of lamList). */
  lemma EqualIndicatorsGiveLinearWeights(sch: Scheme, sigmaList: seq<Vec>, v: nat, sig: real)
    requires Valid(sch) && |sigmaList| == NStencils(sch.N)
    requires forall s :: 0 <= s < |sigmaList| ==> v < |sigmaList[s]| && sigmaList[s][v] == sig
    ensures PositiveColumn(OList(sch, sigmaList), v)
    ensures Sum(LamList(sch.N, sch.lamC, sch.lamS)) > 0.0
    ensures forall s :: 0 <= s < |sigmaList| ==>
      Normalised(OList(sch, sigmaList), v)[s] ==
      LamList(sch.N, sch.lamC, sch.lamS)[s] / Sum(LamList(sch.N, sch.lamC, sch.lamS))
  {
    var lamList := LamList(sch.N, sch.lamC, sch.lamS);
    var oList := OList(sch, sigmaList);
    var p := sch.rcPow(Abs(sig) + sch.eps);
    SmoothColumn(sch, sigmaList, v, sig);
    SumPositive(lamList);
    forall s | 0 <= s < |sigmaList| ensures Normalised(oList, v)[s] == lamList[s] / Sum(lamList) {
      DividedShares(lamList, Column(oList, v), p, s);
    }
  }

  /** With equal indicators every weight of variable v is its linear weight over one common
      positive denominator. */
  lemma SmoothColumn(sch: Scheme, sigmaList: seq<Vec>, v: nat, sig: real)
    requires Valid(sch) && |sigmaList| == NStencils(sch.N)
    requires forall s :: 0 <= s < |sigmaList| ==> v < |sigmaList[s]| && sigmaList[s][v] == sig
    ensures PositiveColumn(OList(sch, sigmaList), v)
    ensures sch.rcPow(Abs(sig) + sch.eps) > 0.0
    ensures forall s :: 0 <= s < |sigmaList| ==>
      Column(OList(sch, sigmaList), v)[s] ==
      LamList(sch.N, sch.lamC, sch.lamS)[s] / sch.rcPow(Abs(sig) + sch.eps)
  {
  }

  // ---------------------------------------------------------------------------------------
  // The same promises for `coeffs` as a whole.

  /** `coeffs` returns a convex combination of the stencils' candidate coefficients:
      coefficient a of variable v is the combination of the candidates' coefficient a of v with
      positive per-variable weights that sum to 1. */
  lemma CoeffsIsConvex(sch: Scheme, uList: seq<Mat>, a: nat, v: nat)
    requires Valid(sch) && StencilInputs(sch, uList) && a < sch.N + 1 && v < sch.n
    ensures var weights := Normalised(WeightsOf(sch, uList), v);
      (forall s :: 0 <= s < |weights| ==> weights[s] > 0.0) && Sum(weights) == 1.0 &&
      CoeffsOf(sch, uList)[a][v] == Combination(weights, WList(sch, uList), a, v)
  {
    BlendIsConvex(WList(sch, uList), WeightsOf(sch, uList), sch.N + 1, sch.n, a, v);
  }

  /** If the solves of all stencils agree on a candidate w, `coeffs` returns w. */
  lemma CoeffsReproducesAgreement(sch: Scheme, uList: seq<Mat>, w: Mat)
    requires Valid(sch) && StencilInputs(sch, uList)
    requires forall s :: 0 <= s < |uList| ==> sch.solve(sch.mc[s], uList[s]) == w
    ensures CoeffsOf(sch, uList) == w
  {
    BlendReproduces(WList(sch, uList), WeightsOf(sch, uList), sch.N + 1, sch.n, w);
  }

  /** In a smooth region, where all candidates have the same indicator for variable v, the weights
      `coeffs` gives variable v are the linear weights in proportion. */
  lemma CoeffsLinearWeightsWhenSmooth(sch: Scheme, uList: seq<Mat>, v: nat)
    requires Valid(sch) && StencilInputs(sch, uList) && v < sch.n
    requires forall s :: 0 <= s < |uList| ==>
      SigmaList(sch, WList(sch, uList))[s][v] == SigmaList(sch, WList(sch, uList))[0][v]
    ensures Sum(LamList(sch.N, sch.lamC, sch.lamS)) > 0.0
    ensures forall s :: 0 <= s < |uList| ==>
      Normalised(WeightsOf(sch, uList), v)[s] ==
      LamList(sch.N, sch.lamC, sch.lamS)[s] / Sum(LamList(sch.N, sch.lamC, sch.lamS))
  {
    var sigmaList := SigmaList(sch, WList(sch, uList));
    EqualIndicatorsGiveLinearWeights(sch, sigmaList, v, sigmaList[0][v]);
  }
}
