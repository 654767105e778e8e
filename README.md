# WENO reconstruction, modelled in Dafny

This project models the WENO reconstruction of the ADER-WENO solver (`solver/weno.py`), which
follows Dumbser et al. The reconstruction starts from cell averages `u` of `n` state variables on
an `nx` x `ny` x `nz` grid. For every cell it computes the coefficients of a degree-`N` polynomial
basis, one axis at a time:

- **Stencil set** (`stencils.dfy`, module `StencilSet`). The parity of `N` fixes the stencils:
  - odd `N` has four stencils: two centred, then a left-biased and a right-biased one;
  - even `N` has three: one centred and the two biased ones.

  This module also fixes each stencil's linear weight (`λc` for centred, `λs` for biased) and the
  window of the ghost-extended axis each stencil reads around the target cell `ii = i + N`.
- **Stencil weighter** (`weighter.dfy`, module `StencilWeighter`). This is `coeffs`:
  1. Solve each stencil's window for candidate coefficients.
  2. Compute each candidate's oscillation indicator `diag(wᵀ Σ w)`.
  3. Turn each indicator into a nonlinear weight `λ / (|σ| + ε)^rc`.
  4. Accumulate the running totals `oSum` and `numerator` stencil by stencil.
  5. Return `numerator / oSum`.

  The comprehensions are functions. The accumulation loop is the method `Accumulate`, proved
  against the function `Blend`. The main results are about `Blend`: it is a convex combination of
  the candidates, it reproduces identical candidates, it stays within the candidates' bounds, and
  with equal indicators the weights are the linear weights in proportion.
- **Axis-sequential reconstructor** (`reconstructor.dfy`, module `Reconstructor`). This is
  `reconstruct`, in three passes:
  1. Extend `u` along x, then fill `Wx` cell by cell.
  2. If `ndim >= 2`, extend `Wx` along y, then fill `Wxy` for every cell and coefficient row.
  3. If `ndim >= 3`, extend `Wxy` along z, then fill `Wxyz` for every cell and pair of rows.

  Each pass is a method over Dafny arrays (`array3` to `array5`). Its loops carry invariants, and
  a ghost multiset records every write; its contract proves that each output entry is written
  exactly once. The passes are proved against the functions `WxAt`, `WxyAt` and `WxyzAt`, which
  state what `reconstruct` computes in terms of the input field alone: extend the line through the
  cell, cut out the stencil windows, apply `coeffs`. The driver returns after exactly `ndim`
  passes, or after all three with no result when `ndim` is not 1, 2 or 3.
- `numerics.dfy` (module `Numerics`) holds the numpy stand-ins on exact reals: finite sums and
  elementwise and broadcasting operations.

The scheme's configuration is a `Scheme` value:

- the options `N`, `n`, `ndim`, `λc`, `λs` and `ε`;
- the power `x ↦ x^rc`;
- the matrices `Mc` and `Σ`;
- the linear solver.

The code reads all of these from module-level globals.

## Model

| member | source | states |
|---|---|---|
| StencilSet.NStencils | solver/weno.py:16-21 | there are 4 stencils exactly when N is odd, otherwise 3 |
| StencilSet.LamList | solver/weno.py:16-21 | one linear weight per stencil; the centred stencils (all but the last two) get λc and the two biased ones get λs |
| StencilSet.StencilWindows | solver/weno.py:41-57 | every window has N+1 cells, contains ii and lies within N cells of it; the left-biased window ends at ii and the right-biased one starts at ii; the centred windows reach at most ⌈N/2⌉ cells to either side of ii; for even N the centred window is symmetric about ii; for odd N the two centred windows are mirror images about ii, the first reaching further right and the second further left (which fixes them as [ii−⌊N/2⌋, ii+⌈N/2⌉] and [ii−⌈N/2⌉, ii+⌊N/2⌋]) |
| StencilSet.WindowsInsidePadded | solver/weno.py:46-47 | for every cell i of an axis of nAxis cells, every window around ii = i + N lies inside the extended axis [0, nAxis + 2N) |
| StencilWeighter.WList | solver/weno.py:27 | one candidate per stencil, each of shape (N+1) x n |
| StencilWeighter.Indicator | solver/weno.py:28 | the indicator `diag(wᵀΣw)` of one candidate has one entry per variable |
| StencilWeighter.IndicatorOfZeroColumn | solver/weno.py:28 | a candidate whose coefficients of variable v all vanish has indicator 0 for v, whatever Σ |
| StencilWeighter.SigmaList | solver/weno.py:28 | one indicator vector of length n per candidate |
| StencilWeighter.Omega | solver/weno.py:29 | every nonlinear weight λ / (\|σ\| + ε)^rc is strictly positive |
| StencilWeighter.OList | solver/weno.py:29 | the weight of stencil s for variable v is Omega of that stencil's indicator for v |
| StencilWeighter.WeightSum | solver/weno.py:30-33 | the total weight oSum[v] of every variable is positive, so the division on line 35 is defined |
| StencilWeighter.Blend | solver/weno.py:35 | `numerator / oSum` has the shape (N+1) x n of the candidates; what each coefficient is, is stated by BlendIsCombination and the lemmas after it |
| StencilWeighter.CoeffsOf | solver/weno.py:24-35 | the value of `coeffs(uList)`: the blend of the solved candidates with their weights, of shape (N+1) x n |
| StencilWeighter.Coeffs | solver/weno.py:24-35 | `coeffs` returns the blend of the candidates with their weights |
| StencilWeighter.Accumulate | solver/weno.py:30-34 | after the loop, oSum[v] is the sum of all stencils' weights for v and numerator[a][v] is the sum of all weighted candidate coefficients |
| StencilWeighter.AccumulateStep | solver/weno.py:32-34 | one pass of the loop extends both running totals by exactly the next stencil |
| StencilWeighter.AccumulatedBlend | solver/weno.py:35 | once every stencil is accumulated, oSum is nonzero and numerator / oSum is the blend |
| StencilWeighter.BlendIsConvex | solver/weno.py:29-35 | per variable, the normalised weights are positive and sum to 1, and every coefficient of the blend is the combination of the candidates with those weights |
| StencilWeighter.NormalisedIsDistribution | solver/weno.py:29-33 | positive weights divided by their total are positive and sum to 1 |
| StencilWeighter.BlendIsCombination | solver/weno.py:32-35 | numerator[a][v] / oSum[v] equals the normalised-weight combination of the candidates' coefficients |
| StencilWeighter.BlendReproduces | solver/weno.py:32-35 | if all candidates are the same block w, the blend is w, whatever the weights |
| StencilWeighter.BlendEntryReproduces | solver/weno.py:32-35 | the same, for a single coefficient |
| StencilWeighter.BlendBounded | solver/weno.py:32-35 | a coefficient that lies within [lo, hi] in every candidate lies within [lo, hi] in the blend |
| StencilWeighter.EqualIndicatorsGiveLinearWeights | solver/weno.py:29 | when every stencil has the same indicator for v, the normalised weight of stencil s is lamList[s] / Σ lamList |
| StencilWeighter.SmoothColumn | solver/weno.py:29 | with equal indicators, every weight is its linear weight over one common positive denominator |
| StencilWeighter.CoeffsIsConvex | solver/weno.py:24-35 | `coeffs` returns a convex combination of the candidate coefficients: positive weights summing to 1 per variable |
| StencilWeighter.CoeffsReproducesAgreement | solver/weno.py:24-35 | if every stencil's solve gives the same w, `coeffs` returns w |
| StencilWeighter.CoeffsLinearWeightsWhenSmooth | solver/weno.py:27-29 | in a smooth region (equal indicators for v), the weights `coeffs` gives v are the linear weights in proportion |
| Numerics.Zeros | solver/weno.py:30 | numpy `zeros(n)`: n entries, all 0 |
| Numerics.ZeroMat | solver/weno.py:31 | numpy `zeros([N+1, n])`: shape (N+1) x n, all entries 0 |
| Numerics.VecAdd | solver/weno.py:33 | numpy `oSum += oList[i]`: length kept, entrywise sums |
| Numerics.MatAdd | solver/weno.py:34 | numpy `+=` on blocks: shape kept, entrywise sums |
| Numerics.Multiply | solver/weno.py:34 | numpy `multiply(w, o)`: o broadcast over the rows |
| Numerics.Divide | solver/weno.py:35 | numpy `numerator / oSum`: oSum broadcast over the rows |
| Reconstructor.SourceIndex | solver/weno.py:45 | the cell of the axis that supplies ghost-extended position p lies on the axis, and interior positions N..N+len-1 come from cell p - N |
| Reconstructor.ExtendedLine | solver/weno.py:45 | an extended line has 2N more cells, every cell comes from the line, and cutting out the middle gives the line back |
| Reconstructor.ExtendAxis0 | solver/weno.py:45 | `extend(u, N, 0)`: a fresh array, 2N longer along x, holding u at offset N with the ghost cells taken from u |
| Reconstructor.ExtendAxis1 | solver/weno.py:63 | `extend(Wx, N, 1)`: the same along y |
| Reconstructor.ExtendAxis2 | solver/weno.py:82 | `extend(Wxy, N, 2)`: the same along z |
| Reconstructor.Slices | solver/weno.py:49-57 | the stencil inputs are exactly the windows of the line, each N+1 cells of n values |
| Reconstructor.LineX | solver/weno.py:49-57 | the line `tempu[:, j, k]` along x: entry p is `tempu[p, j, k]` |
| Reconstructor.StencilsX | solver/weno.py:47-57 | the x stencils of cell (i, j, k) are a valid argument of `coeffs` |
| Reconstructor.LineY | solver/weno.py:68-76 | the line `tempWx[i, :, k, a]` along y: entry p is row a of `tempWx[i, p, k]`, n values |
| Reconstructor.StencilsY | solver/weno.py:65-76 | the y stencils of cell (i, j, k), coefficient row a, are a valid argument of `coeffs` |
| Reconstructor.LineZ | solver/weno.py:87-95 | the line `tempWxy[i, j, :, a, b]` along z: entry p is row b of `tempWxy[i, j, p, a]`, n values |
| Reconstructor.StencilsZ | solver/weno.py:84-95 | the z stencils of cell (i, j, k), rows (a, b), are a valid argument of `coeffs` |
| Reconstructor.SweepX | solver/weno.py:44-58 | Wx has shape [nx, ny, nz]; every entry is `coeffs` of its x stencils; every entry is written exactly once |
| Reconstructor.SweepRowX | solver/weno.py:46-58 | one (i, j) row of Wx is filled along k and nothing else changes |
| Reconstructor.BlendCellX | solver/weno.py:52-58 | `Wx[i, j, k] = coeffs(...)`, nothing else changes |
| Reconstructor.VisitRow3 | solver/weno.py:46 | the `product` loop writes each (i, j, k) once: a completed row adds exactly its own entries |
| Reconstructor.VisitPlane3 | solver/weno.py:46 | the same for a completed plane |
| Reconstructor.SweepY | solver/weno.py:62-77 | Wxy has shape [nx, ny, nz, N+1]; every entry is `coeffs` of its y stencils; every entry is written exactly once |
| Reconstructor.SweepRowY | solver/weno.py:64-77 | one (i, j) row of Wxy is filled along k and a, and nothing else changes |
| Reconstructor.FillCellY | solver/weno.py:66-77 | every coefficient row a of one cell is filled, and nothing else changes |
| Reconstructor.BlendEntryY | solver/weno.py:71-77 | `Wxy[i, j, k, a] = coeffs(...)`, nothing else changes |
| Reconstructor.VisitCell4 | solver/weno.py:64-66 | a completed cell adds exactly its N+1 entries to the write log |
| Reconstructor.SweepZ | solver/weno.py:81-96 | Wxyz has shape [nx, ny, nz, N+1, N+1]; every entry is `coeffs` of its z stencils; every entry is written exactly once |
| Reconstructor.SweepRowZ | solver/weno.py:83-96 | one (i, j) row of Wxyz is filled along k, a and b, and nothing else changes |
| Reconstructor.FillCellZ | solver/weno.py:85-96 | every pair of rows (a, b) of one cell is filled, and nothing else changes |
| Reconstructor.FillLineZ | solver/weno.py:85-96 | every b of one (cell, a) is filled, and nothing else changes |
| Reconstructor.BlendEntryZ | solver/weno.py:90-96 | `Wxyz[i, j, k, a, b] = coeffs(...)`, nothing else changes |
| Reconstructor.VisitCell5 | solver/weno.py:83-85 | a completed cell adds exactly its (N+1)² entries to the write log |
| Reconstructor.WxAt | solver/weno.py:44-58 | the x reconstruction of a cell, as a function of u, has shape (N+1) x n |
| Reconstructor.WxyAt | solver/weno.py:62-77 | the xy reconstruction of a cell and row, as a function of u, has shape (N+1) x n |
| Reconstructor.WxyzAt | solver/weno.py:81-96 | the xyz reconstruction of a cell and pair of rows, as a function of u, has shape (N+1) x n |
| Reconstructor.PassX | solver/weno.py:44-58 | extending u and sweeping along x gives WxAt at every cell |
| Reconstructor.PassY | solver/weno.py:62-77 | extending Wx and sweeping along y gives WxyAt at every cell and row |
| Reconstructor.PassZ | solver/weno.py:81-96 | extending Wxy and sweeping along z gives WxyzAt at every cell and pair of rows |
| Reconstructor.Reconstruct | solver/weno.py:37-98 | the number of passes run is ndim when ndim is 1 or 2, and 3 otherwise; the result is Wx, Wxy or Wxyz exactly when ndim is 1, 2 or 3, and nothing otherwise; each has shape [nx, ny, nz] + [N+1]·(passes−1) + [N+1, n] and holds WxAt, WxyAt or WxyzAt of u, each pass extending with the boundary policy of its own axis |

## Left out

- `solve` (scipy's dense linear solve, line 27) is a foreign call. The model takes it as a
  parameter function and knows only that its solution has the shape of its right-hand side. The
  model does not state that `Mc[s] · w = u_s`.
- StencilWeighter.Coeffs: assumes that `solve` always succeeds and never writes into its
  argument. The code passes `overwrite_b=1`, which allows scipy to overwrite the right-hand side.
  Those right-hand sides are views into `tempu`, `tempWx` and `tempWxy` (lines 49-57, 68-76,
  87-95). Where scipy does solve in place, later stencils of the same sweep would read
  coefficients instead of field values; the model's sweeps keep the extended field unchanged.
  The `LinAlgError` scipy raises for a singular `Mc[s]` is not modelled either.
- `coefficient_matrices()` and `oscillation_indicator()` (lines 13-14) live in
  `solver/weno_matrices.py`, which is not part of this model. `Mc` and `Σ` are parameters, and
  the model assumes nothing of them beyond their shapes (Σ's entries enter the indicator, but no
  property of them is assumed).
- `(|σ| + ε)^rc` (line 29): Dafny has no real power. The model takes a parameter function that is
  positive on positive arguments.
- Floating point: every value is an exact real, so rounding, overflow and NaN are not modelled.
  The identities proved (sum of weights is 1, reproduction, bounds) hold exactly only on reals.
- `extend` (`auxiliary.functions`) is not part of this model. The model takes one boundary index
  map per axis as a parameter (`Boundaries`): each ghost cell is a copy of some cell of the same
  line, and the data sits at offset N. This covers copying policies such as periodic and mirrored
  boundaries, chosen separately for x, y and z. The map depends only on the position and the
  axis length, so a policy that computes new values (extrapolation), or one that differs from
  line to line within an axis, is not covered.
- Reconstructor.Reconstruct: requires every axis that a pass extends to hold at least one cell
  (nx > 0; ny > 0 unless ndim is 1; nz > 0 unless ndim is 1 or 2), because the boundary map needs a
  cell to copy from. What `extend` does with an empty axis belongs to `extend`, so that case is not
  modelled.
- `options` (rc, λc, λs, ε, ndim, N, n) are module-level globals. They become fields of the
  `Scheme` parameter, and `Valid` demands what the code assumes of them:
  - λc, λs and ε positive;
  - one coefficient matrix per stencil;
  - a square Σ.
- Numpy array layout: a cell's n values are a `seq<real>`, and a (N+1) x n coefficient block is a
  `seq<seq<real>>`. The arrays Wx, Wxy and Wxyz are Dafny arrays of such blocks, so their last two
  numpy axes are sequence levels rather than array dimensions.
- The order in which the loops visit cells is modelled (k innermost, then j, then i; rows a and b
  inside each cell), but no property depends on it beyond each entry being written once.
- `floorHalfN` and `ceilHalfN` (lines 41-42) are computed with real floor and ceiling in the code
  and with integer division in the model; the two agree for every natural N.
