/** The axis-sequential reconstructor `reconstruct`: reconstruct along x in every cell; for two
    or three dimensions, treat the x coefficients as a new field and reconstruct them along y,
    then the xy coefficients along z. Each pass reads a copy of its field extended by N ghost
    cells on both sides of the pass's axis, and adds one trailing axis of N + 1 coefficients. */
module Reconstructor {
  import opened Numerics
  import opened StencilSet
  import opened StencilWeighter

  // ---------------------------------------------------------------------------------------
  // Ghost-cell extension.

  /** Stands for the boundary policy of `extend`, which belongs to another module: the ghost cell
      at offset p from the start of an axis of len cells (p < 0 before it, p >= len after it)
      copies the interior cell f(p, len). */
  type Boundary = f: (int, nat) -> nat | forall p, len :: 0 < len ==> f(p, len) < len
    witness (p: int, len: nat) => 0

  /** The boundary policies `extend` applies along the x, y and z axes. */
  datatype Boundaries = Boundaries(x: Boundary, y: Boundary, z: Boundary)

  /** The cell of an axis of len cells that position p of the axis extended by N cells on each
      side holds: the interior is the original axis shifted by N, the rest is boundary. */
  function SourceIndex(bnd: Boundary, N: nat, p: int, len: nat): (q: int)
    requires len > 0
    ensures 0 <= q < len
    ensures N <= p < N + len ==> q == p - N
  {
    if N <= p < N + len then p - N else bnd(p - N, len)
  }

  /** `extend` along one line of cells: N ghost cells before and after it, filled by the
      boundary policy, with the line itself in between. */
  function ExtendedLine<T>(line: seq<T>, N: nat, bnd: Boundary): (e: seq<T>)
    requires |line| > 0
    ensures |e| == |line| + 2 * N
    ensures forall p :: 0 <= p < |e| ==> e[p] == line[SourceIndex(bnd, N, p, |line|)]
    // the interior of the extended line is the line, shifted by N
    ensures forall q :: 0 <= q < |line| ==> e[q + N] == line[q]
  {
    seq(|line| + 2 * N, p requires 0 <= p < |line| + 2 * N => line[SourceIndex(bnd, N, p, |line|)])
  }

  /** `extend(a, N, 0)`: a with N ghost cells before and after along the first axis. */
  method ExtendAxis0<T>(a: array3<T>, N: nat, bnd: Boundary) returns (e: array3<T>)
    requires a.Length0 > 0
    ensures fresh(e)
    ensures e.Length0 == a.Length0 + 2 * N && e.Length1 == a.Length1 && e.Length2 == a.Length2
    ensures forall p, j, k :: 0 <= p < e.Length0 && 0 <= j < e.Length1 && 0 <= k < e.Length2 ==>
      e[p, j, k] == a[SourceIndex(bnd, N, p, a.Length0), j, k]
    ensures forall i, j, k :: 0 <= i < a.Length0 && 0 <= j < a.Length1 && 0 <= k < a.Length2 ==>
      e[i + N, j, k] == a[i, j, k]
  {
    e := new T[a.Length0 + 2 * N, a.Length1, a.Length2]((p, j, k)
      requires 0 <= p < a.Length0 + 2 * N && 0 <= j < a.Length1 && 0 <= k < a.Length2 reads a =>
      a[SourceIndex(bnd, N, p, a.Length0), j, k]);
  }

  /** `extend(a, N, 1)`: a with N ghost cells before and after along the second axis. */
  method ExtendAxis1<T>(a: array3<T>, N: nat, bnd: Boundary) returns (e: array3<T>)
    requires a.Length1 > 0
    ensures fresh(e)
    ensures e.Length0 == a.Length0 && e.Length1 == a.Length1 + 2 * N && e.Length2 == a.Length2
    ensures forall i, p, k :: 0 <= i < e.Length0 && 0 <= p < e.Length1 && 0 <= k < e.Length2 ==>
      e[i, p, k] == a[i, SourceIndex(bnd, N, p, a.Length1), k]
    ensures forall i, j, k :: 0 <= i < a.Length0 && 0 <= j < a.Length1 && 0 <= k < a.Length2 ==>
      e[i, j + N, k] == a[i, j, k]
  {
    e := new T[a.Length0, a.Length1 + 2 * N, a.Length2]((i, p, k)
      requires 0 <= i < a.Length0 && 0 <= p < a.Length1 + 2 * N && 0 <= k < a.Length2 reads a =>
      a[i, SourceIndex(bnd, N, p, a.Length1), k]);
  }

  /** `extend(a, N, 2)`: a with N ghost cells before and after along the third axis. */
  method ExtendAxis2<T>(a: array4<T>, N: nat, bnd: Boundary) returns (e: array4<T>)
    requires a.Length2 > 0
    ensures fresh(e)
    ensures e.Length0 == a.Length0 && e.Length1 == a.Length1 && e.Length2 == a.Length2 + 2 * N
    ensures e.Length3 == a.Length3
    ensures forall i, j, p, c :: 0 <= i < e.Length0 && 0 <= j < e.Length1 && 0 <= p < e.Length2 && 0 <= c < e.Length3 ==>
      e[i, j, p, c] == a[i, j, SourceIndex(bnd, N, p, a.Length2), c]
    ensures forall i, j, k, c :: 0 <= i < a.Length0 && 0 <= j < a.Length1 && 0 <= k < a.Length2 && 0 <= c < a.Length3 ==>
      e[i, j, k + N, c] == a[i, j, k, c]
  {
    e := new T[a.Length0, a.Length1, a.Length2 + 2 * N, a.Length3]((i, j, p, c)
      requires 0 <= i < a.Length0 && 0 <= j < a.Length1 && 0 <= p < a.Length2 + 2 * N && 0 <= c < a.Length3
      reads a =>
      a[i, j, SourceIndex(bnd, N, p, a.Length2), c]);
  }

  // ---------------------------------------------------------------------------------------
  // Shapes of the fields.

  /** Every cell of the field holds n values. */
  ghost predicate VecCells(u: array3<Vec>, n: nat)
    reads u
  {
    forall i, j, k :: 0 <= i < u.Length0 && 0 <= j < u.Length1 && 0 <= k < u.Length2 ==> |u[i, j, k]| == n
  }

  /** Every cell of the field holds a rows x n block. */
  ghost predicate MatCells3(w: array3<Mat>, rows: nat, n: nat)
    reads w
  {
    forall i, j, k :: 0 <= i < w.Length0 && 0 <= j < w.Length1 && 0 <= k < w.Length2 ==> IsMat(w[i, j, k], rows, n)
  }

  ghost predicate MatCells4(w: array4<Mat>, rows: nat, n: nat)
    reads w
  {
    forall i, j, k, a :: 0 <= i < w.Length0 && 0 <= j < w.Length1 && 0 <= k < w.Length2 && 0 <= a < w.Length3 ==>
      IsMat(w[i, j, k, a], rows, n)
  }

  ghost predicate MatCells5(w: array5<Mat>, rows: nat, n: nat)
    reads w
  {
    forall i, j, k, a, b :: 0 <= i < w.Length0 && 0 <= j < w.Length1 && 0 <= k < w.Length2 &&
                            0 <= a < w.Length3 && 0 <= b < w.Length4 ==>
      IsMat(w[i, j, k, a, b], rows, n)
  }

  // ---------------------------------------------------------------------------------------
  // Stencils.

  /** The slices `line[w.lo : w.hi]` of one line of an extended field, one per stencil window w:
      the arguments of `coeffs`. */
  function Slices(sch: Scheme, line: seq<Vec>, ws: seq<Window>): (uList: seq<Mat>)
    requires |ws| == NStencils(sch.N)
    requires forall s :: 0 <= s < |ws| ==> 0 <= ws[s].lo && ws[s].hi <= |line| && ws[s].hi - ws[s].lo == sch.N + 1
    requires forall p :: 0 <= p < |line| ==> |line[p]| == sch.n
    ensures StencilInputs(sch, uList)
    ensures |uList| == |ws| && forall s :: 0 <= s < |ws| ==> uList[s] == line[ws[s].lo .. ws[s].hi]
  {
    seq(|ws|, s requires 0 <= s < |ws| => line[ws[s].lo .. ws[s].hi])
  }

  // ---------------------------------------------------------------------------------------
  // The x pass (lines 44-58 of the source).

  /** The line `tempu[:, j, k]` of the field extended along x. */
  function LineX(tempu: array3<Vec>, j: int, k: int): (line: seq<Vec>)
    reads tempu
    requires 0 <= j < tempu.Length1 && 0 <= k < tempu.Length2
    ensures |line| == tempu.Length0 && forall p :: 0 <= p < |line| ==> line[p] == tempu[p, j, k]
  {
    seq(tempu.Length0, p requires 0 <= p < tempu.Length0 reads tempu => tempu[p, j, k])
  }

  /** The stencils `[u1, u2, u3]` or `[u1, u2, u3, u4]` of cell (i, j, k) in the x pass: the slices
      `tempu[w.lo : w.hi, j, k]` of the field extended along x, one per stencil window w. */
  function StencilsX(sch: Scheme, tempu: array3<Vec>, i: int, j: int, k: int): (uList: seq<Mat>)
    reads tempu
    requires VecCells(tempu, sch.n) && tempu.Length0 >= 2 * sch.N
    requires 0 <= i < tempu.Length0 - 2 * sch.N && 0 <= j < tempu.Length1 && 0 <= k < tempu.Length2
    ensures StencilInputs(sch, uList)
  {
    var ws := StencilWindows(sch.N, i + sch.N);
    WindowsInsidePadded(sch.N, tempu.Length0 - 2 * sch.N, i);
    Slices(sch, LineX(tempu, j, k), ws)
  }

  /** Cell (i', j', k') is visited before cell (i, j, k) by `product(range(nx), range(ny), range(nz))`. */
  predicate Before3(c: (int, int, int), i: int, j: int, k: int)
  {
    c.0 < i || (c.0 == i && (c.1 < j || (c.1 == j && c.2 < k)))
  }

  predicate InBox3(c: (int, int, int), nx: int, ny: int, nz: int)
  {
    0 <= c.0 < nx && 0 <= c.1 < ny && 0 <= c.2 < nz
  }

  /** `writes` holds, once each, exactly the cells of the nx x ny x nz box visited before (i, j, k). */
  ghost predicate Visited3(writes: multiset<(int, int, int)>, nx: int, ny: int, nz: int, i: int, j: int, k: int)
  {
    forall c :: writes[c] == if InBox3(c, nx, ny, nz) && Before3(c, i, j, k) then 1 else 0
  }

  /** The cells (i, j, 0), ..., (i, j, nz - 1) in the order the x pass assigns them. */
  function RowEntries(i: int, j: int, nz: nat): (es: seq<(int, int, int)>)
    ensures |es| == nz && forall k :: 0 <= k < nz ==> es[k] == (i, j, k)
  {
    seq(nz, k => (i, j, k))
  }

  /** Each cell of row (i, j) occurs once among its cells, and nothing else does. */
  lemma {:induction false} RowEntriesOnce(i: int, j: int, nz: nat, c: (int, int, int))
    ensures multiset(RowEntries(i, j, nz))[c] == if (c.0, c.1) == (i, j) && 0 <= c.2 < nz then 1 else 0
  {
    if nz > 0 {
      RowEntriesOnce(i, j, nz - 1, c);
      assert RowEntries(i, j, nz) == RowEntries(i, j, nz - 1) + [(i, j, nz - 1)];
    }
  }

  /** Recording every cell of row (i, j) moves on to the next row. */
  lemma VisitRow3(writes: multiset<(int, int, int)>, nx: int, ny: int, nz: nat, i: int, j: int)
    requires Visited3(writes, nx, ny, nz, i, j, 0) && 0 <= i < nx && 0 <= j < ny
    ensures Visited3(writes + multiset(RowEntries(i, j, nz)), nx, ny, nz, i, j + 1, 0)
  {
    var row := multiset(RowEntries(i, j, nz));
    forall c ensures (writes + row)[c] == if InBox3(c, nx, ny, nz) && Before3(c, i, j + 1, 0) then 1 else 0 {
      RowEntriesOnce(i, j, nz, c);
    }
  }

  lemma VisitPlane3(writes: multiset<(int, int, int)>, nx: int, ny: int, nz: int, i: int)
    requires Visited3(writes, nx, ny, nz, i, ny, 0)
    ensures Visited3(writes, nx, ny, nz, i + 1, 0, 0)
  {
    forall c ensures writes[c] == if InBox3(c, nx, ny, nz) && Before3(c, i + 1, 0, 0) then 1 else 0 {
      assert InBox3(c, nx, ny, nz) ==> (Before3(c, i, ny, 0) <==> Before3(c, i + 1, 0, 0));
    }
  }

  /** The x pass: `Wx[i, j, k] = coeffs(...)` for every cell, in the order of
      `product(range(nx), range(ny), range(nz))`. The ghost multiset `writes` records the cells
      assigned, once per assignment. */
  method SweepX(sch: Scheme, tempu: array3<Vec>, nx: nat) returns (wx: array3<Mat>, ghost writes: multiset<(int, int, int)>)
    requires Valid(sch) && tempu.Length0 == nx + 2 * sch.N && VecCells(tempu, sch.n)
    ensures fresh(wx)
    ensures wx.Length0 == nx && wx.Length1 == tempu.Length1 && wx.Length2 == tempu.Length2
    ensures forall i, j, k :: 0 <= i < nx && 0 <= j < wx.Length1 && 0 <= k < wx.Length2 ==>
      wx[i, j, k] == CoeffsOf(sch, StencilsX(sch, tempu, i, j, k))
    // every cell of Wx is assigned exactly once, and nothing outside it is
    ensures forall c :: writes[c] == if InBox3(c, wx.Length0, wx.Length1, wx.Length2) then 1 else 0
  {
    var ny, nz := tempu.Length1, tempu.Length2;
    wx := new Mat[nx, ny, nz]((i, j, k) => ZeroMat(sch.N + 1, sch.n));
    writes := multiset{};
    for i := 0 to nx
      invariant forall i', j', k' :: 0 <= i' < i && 0 <= j' < ny && 0 <= k' < nz ==>
        wx[i', j', k'] == CoeffsOf(sch, StencilsX(sch, tempu, i', j', k'))
      invariant Visited3(writes, nx, ny, nz, i, 0, 0)
    {
      for j := 0 to ny
        invariant forall i', j', k' :: 0 <= i' < nx && 0 <= j' < ny && 0 <= k' < nz && Before3((i', j', k'), i, j, 0) ==>
          wx[i', j', k'] == CoeffsOf(sch, StencilsX(sch, tempu, i', j', k'))
        invariant Visited3(writes, nx, ny, nz, i, j, 0)
      {
        var rowWrites := SweepRowX(sch, tempu, wx, i, j);
        VisitRow3(writes, nx, ny, nz, i, j);
        writes := writes + multiset(rowWrites);
      }
      VisitPlane3(writes, nx, ny, nz, i);
    }
    assert Visited3(writes, nx, ny, nz, nx, 0, 0);
  }

  /** One row of the x pass: the cells (i, j, 0), ..., (i, j, nz - 1). */
  method SweepRowX(sch: Scheme, tempu: array3<Vec>, wx: array3<Mat>, i: int, j: int)
    returns (ghost writes: seq<(int, int, int)>)
    requires Valid(sch) && VecCells(tempu, sch.n) && tempu.Length0 == wx.Length0 + 2 * sch.N
    requires wx.Length1 == tempu.Length1 && wx.Length2 == tempu.Length2
    requires 0 <= i < wx.Length0 && 0 <= j < wx.Length1
    modifies wx
    ensures forall k :: 0 <= k < wx.Length2 ==> wx[i, j, k] == CoeffsOf(sch, StencilsX(sch, tempu, i, j, k))
    ensures forall i', j', k' :: 0 <= i' < wx.Length0 && 0 <= j' < wx.Length1 && 0 <= k' < wx.Length2 && (i' != i || j' != j) ==>
      wx[i', j', k'] == old(wx[i', j', k'])
    // the cells assigned, in order: (i, j, 0), ..., (i, j, nz - 1)
    ensures writes == RowEntries(i, j, wx.Length2)
  {
    var nx, ny, nz := wx.Length0, wx.Length1, wx.Length2;
    writes := [];
    for k := 0 to nz
      invariant forall k' :: 0 <= k' < k ==> wx[i, j, k'] == CoeffsOf(sch, StencilsX(sch, tempu, i, j, k'))
      invariant forall i', j', k' :: 0 <= i' < nx && 0 <= j' < ny && 0 <= k' < nz && (i' != i || j' != j || k <= k') ==>
        wx[i', j', k'] == old(wx[i', j', k'])
      invariant writes == RowEntries(i, j, k)
    {
      BlendCellX(sch, tempu, wx, i, j, k);
      writes := writes + [(i, j, k)];
    }
  }

  /** The body of the x pass at cell (i, j, k): `Wx[i, j, k] = coeffs(...)`. */
  method BlendCellX(sch: Scheme, tempu: array3<Vec>, wx: array3<Mat>, i: int, j: int, k: int)
    requires Valid(sch) && VecCells(tempu, sch.n) && tempu.Length0 == wx.Length0 + 2 * sch.N
    requires wx.Length1 == tempu.Length1 && wx.Length2 == tempu.Length2
    requires 0 <= i < wx.Length0 && 0 <= j < wx.Length1 && 0 <= k < wx.Length2
    modifies wx
    ensures wx[i, j, k] == CoeffsOf(sch, StencilsX(sch, tempu, i, j, k))
    ensures forall i', j', k' :: 0 <= i' < wx.Length0 && 0 <= j' < wx.Length1 && 0 <= k' < wx.Length2 &&
                                 (i' != i || j' != j || k' != k) ==>
      wx[i', j', k'] == old(wx[i', j', k'])
  {
    var blended := Coeffs(sch, StencilsX(sch, tempu, i, j, k));
    wx[i, j, k] := blended;
  }

  // ---------------------------------------------------------------------------------------
  // The y pass (lines 62-77 of the source).

  /** The line `tempWx[i, :, k, a]` of the x reconstructions extended along y: coefficient row a
      of every cell on the line. */
  function LineY(sch: Scheme, tempWx: array3<Mat>, i: int, k: int, a: int): (line: seq<Vec>)
    reads tempWx
    requires MatCells3(tempWx, sch.N + 1, sch.n)
    requires 0 <= i < tempWx.Length0 && 0 <= k < tempWx.Length2 && 0 <= a <= sch.N
    ensures |line| == tempWx.Length1 && forall p :: 0 <= p < |line| ==> line[p] == tempWx[i, p, k][a]
    ensures forall p :: 0 <= p < |line| ==> |line[p]| == sch.n
  {
    seq(tempWx.Length1, p requires 0 <= p < tempWx.Length1 && a < |tempWx[i, p, k]| reads tempWx => tempWx[i, p, k][a])
  }

  /** The stencils `[w1, w2, w3]` or `[w1, w2, w3, w4]` of cell (i, j, k) and coefficient row a in
      the y pass: the slices `tempWx[i, w.lo : w.hi, k, a]`, one per stencil window w. */
  function StencilsY(sch: Scheme, tempWx: array3<Mat>, i: int, j: int, k: int, a: int): (uList: seq<Mat>)
    reads tempWx
    requires MatCells3(tempWx, sch.N + 1, sch.n) && tempWx.Length1 >= 2 * sch.N
    requires 0 <= i < tempWx.Length0 && 0 <= j < tempWx.Length1 - 2 * sch.N && 0 <= k < tempWx.Length2
    requires 0 <= a <= sch.N
    ensures StencilInputs(sch, uList)
  {
    var ws := StencilWindows(sch.N, j + sch.N);
    WindowsInsidePadded(sch.N, tempWx.Length1 - 2 * sch.N, j);
    Slices(sch, LineY(sch, tempWx, i, k, a), ws)
  }

  /** Cell (i', j', k') and row a' are visited before cell (i, j, k) and row a by the y pass. */
  predicate Before4(c: (int, int, int, int), i: int, j: int, k: int, a: int)
  {
    c.0 < i || (c.0 == i && (c.1 < j || (c.1 == j && (c.2 < k || (c.2 == k && c.3 < a)))))
  }

  predicate InBox4(c: (int, int, int, int), nx: int, ny: int, nz: int, na: int)
  {
    0 <= c.0 < nx && 0 <= c.1 < ny && 0 <= c.2 < nz && 0 <= c.3 < na
  }

  /** `writes` holds, once each, exactly the entries of the nx x ny x nz x na box visited before
      (i, j, k, a). */
  ghost predicate Visited4(writes: multiset<(int, int, int, int)>, nx: int, ny: int, nz: int, na: int,
                           i: int, j: int, k: int, a: int)
  {
    forall c :: writes[c] == if InBox4(c, nx, ny, nz, na) && Before4(c, i, j, k, a) then 1 else 0
  }

  /** The entries (i, j, k, 0), ..., (i, j, k, na - 1) in the order the y pass assigns them. */
  function CellEntries(i: int, j: int, k: int, na: nat): (es: seq<(int, int, int, int)>)
    ensures |es| == na && forall a :: 0 <= a < na ==> es[a] == (i, j, k, a)
  {
    seq(na, a => (i, j, k, a))
  }

  /** Each entry of cell (i, j, k) occurs once among its entries, and nothing else does. */
  lemma {:induction false} CellEntriesOnce(i: int, j: int, k: int, na: nat, c: (int, int, int, int))
    ensures multiset(CellEntries(i, j, k, na))[c] == if (c.0, c.1, c.2) == (i, j, k) && 0 <= c.3 < na then 1 else 0
  {
    if na > 0 {
      CellEntriesOnce(i, j, k, na - 1, c);
      assert CellEntries(i, j, k, na) == CellEntries(i, j, k, na - 1) + [(i, j, k, na - 1)];
    }
  }

  /** Recording every entry of cell (i, j, k) moves on to the next cell of the row. */
  lemma VisitCell4(writes: multiset<(int, int, int, int)>, nx: int, ny: int, nz: int, na: nat, i: int, j: int, k: int)
    requires Visited4(writes, nx, ny, nz, na, i, j, k, 0) && 0 <= i < nx && 0 <= j < ny && 0 <= k < nz
    ensures Visited4(writes + multiset(CellEntries(i, j, k, na)), nx, ny, nz, na, i, j, k + 1, 0)
  {
    var cell := multiset(CellEntries(i, j, k, na));
    forall c ensures (writes + cell)[c] == if InBox4(c, nx, ny, nz, na) && Before4(c, i, j, k + 1, 0) then 1 else 0 {
      CellEntriesOnce(i, j, k, na, c);
    }
  }

  lemma VisitRow4(writes: multiset<(int, int, int, int)>, nx: int, ny: int, nz: int, na: int, i: int, j: int)
    requires Visited4(writes, nx, ny, nz, na, i, j, nz, 0)
    ensures Visited4(writes, nx, ny, nz, na, i, j + 1, 0, 0)
  {
    forall c ensures writes[c] == if InBox4(c, nx, ny, nz, na) && Before4(c, i, j + 1, 0, 0) then 1 else 0 {
      assert InBox4(c, nx, ny, nz, na) ==> (Before4(c, i, j, nz, 0) <==> Before4(c, i, j + 1, 0, 0));
    }
  }

  lemma VisitPlane4(writes: multiset<(int, int, int, int)>, nx: int, ny: int, nz: int, na: int, i: int)
    requires Visited4(writes, nx, ny, nz, na, i, ny, 0, 0)
    ensures Visited4(writes, nx, ny, nz, na, i + 1, 0, 0, 0)
  {
    forall c ensures writes[c] == if InBox4(c, nx, ny, nz, na) && Before4(c, i + 1, 0, 0, 0) then 1 else 0 {
      assert InBox4(c, nx, ny, nz, na) ==> (Before4(c, i, ny, 0, 0) <==> Before4(c, i + 1, 0, 0, 0));
    }
  }

  /** The y pass: `Wxy[i, j, k, a] = coeffs(...)` for every cell, in the order of
      `product(range(nx), range(ny), range(nz))`, and every coefficient row a of its x
      reconstruction. The ghost multiset `writes` records the entries assigned, once per assignment. */
  method SweepY(sch: Scheme, tempWx: array3<Mat>, ny: nat) returns (wxy: array4<Mat>, ghost writes: multiset<(int, int, int, int)>)
    requires Valid(sch) && tempWx.Length1 == ny + 2 * sch.N && MatCells3(tempWx, sch.N + 1, sch.n)
    ensures fresh(wxy)
    ensures wxy.Length0 == tempWx.Length0 && wxy.Length1 == ny && wxy.Length2 == tempWx.Length2
    ensures wxy.Length3 == sch.N + 1
    ensures forall i, j, k, a :: 0 <= i < wxy.Length0 && 0 <= j < ny && 0 <= k < wxy.Length2 && 0 <= a <= sch.N ==>
      wxy[i, j, k, a] == CoeffsOf(sch, StencilsY(sch, tempWx, i, j, k, a))
    // every entry of Wxy is assigned exactly once, and nothing outside it is
    ensures forall c :: writes[c] == if InBox4(c, wxy.Length0, wxy.Length1, wxy.Length2, wxy.Length3) then 1 else 0
  {
    var nx, nz, na := tempWx.Length0, tempWx.Length2, sch.N + 1;
    wxy := new Mat[nx, ny, nz, na]((i, j, k, a) => ZeroMat(sch.N + 1, sch.n));
    writes := multiset{};
    for i := 0 to nx
      invariant forall i', j', k', a' :: 0 <= i' < i && 0 <= j' < ny && 0 <= k' < nz && 0 <= a' < na ==>
        wxy[i', j', k', a'] == CoeffsOf(sch, StencilsY(sch, tempWx, i', j', k', a'))
      invariant Visited4(writes, nx, ny, nz, na, i, 0, 0, 0)
    {
      for j := 0 to ny
        invariant forall i', j', k', a' :: 0 <= i' < nx && 0 <= j' < ny && 0 <= k' < nz && 0 <= a' < na &&
                                           (i' < i || (i' == i && j' < j)) ==>
          wxy[i', j', k', a'] == CoeffsOf(sch, StencilsY(sch, tempWx, i', j', k', a'))
        invariant Visited4(writes, nx, ny, nz, na, i, j, 0, 0)
      {
        writes := SweepRowY(sch, tempWx, wxy, i, j, writes);
      }
      VisitPlane4(writes, nx, ny, nz, na, i);
    }
    assert Visited4(writes, nx, ny, nz, na, nx, 0, 0, 0);
  }

  /** One row of the y pass: the cells (i, j, 0), ..., (i, j, nz - 1), every coefficient row of each. */
  method SweepRowY(sch: Scheme, tempWx: array3<Mat>, wxy: array4<Mat>, i: int, j: int, ghost writes: multiset<(int, int, int, int)>)
    returns (ghost writes': multiset<(int, int, int, int)>)
    requires Valid(sch) && MatCells3(tempWx, sch.N + 1, sch.n) && tempWx.Length1 == wxy.Length1 + 2 * sch.N
    requires wxy.Length0 == tempWx.Length0 && wxy.Length2 == tempWx.Length2 && wxy.Length3 == sch.N + 1
    requires 0 <= i < wxy.Length0 && 0 <= j < wxy.Length1
    requires Visited4(writes, wxy.Length0, wxy.Length1, wxy.Length2, wxy.Length3, i, j, 0, 0)
    modifies wxy
    ensures forall k, a :: 0 <= k < wxy.Length2 && 0 <= a < wxy.Length3 ==>
      wxy[i, j, k, a] == CoeffsOf(sch, StencilsY(sch, tempWx, i, j, k, a))
    ensures forall i', j', k', a' :: 0 <= i' < wxy.Length0 && 0 <= j' < wxy.Length1 && 0 <= k' < wxy.Length2 &&
                                     0 <= a' < wxy.Length3 && (i' != i || j' != j) ==>
      wxy[i', j', k', a'] == old(wxy[i', j', k', a'])
    ensures Visited4(writes', wxy.Length0, wxy.Length1, wxy.Length2, wxy.Length3, i, j + 1, 0, 0)
  {
    var nx, ny, nz, na := wxy.Length0, wxy.Length1, wxy.Length2, wxy.Length3;
    writes' := writes;
    for k := 0 to nz
      invariant forall k', a' :: 0 <= k' < k && 0 <= a' < na ==>
        wxy[i, j, k', a'] == CoeffsOf(sch, StencilsY(sch, tempWx, i, j, k', a'))
      invariant forall i', j', k', a' :: 0 <= i' < nx && 0 <= j' < ny && 0 <= k' < nz && 0 <= a' < na &&
                                         (i' != i || j' != j || k <= k') ==>
        wxy[i', j', k', a'] == old(wxy[i', j', k', a'])
      invariant Visited4(writes', nx, ny, nz, na, i, j, k, 0)
    {
      var cellWrites := FillCellY(sch, tempWx, wxy, i, j, k);
      VisitCell4(writes', nx, ny, nz, na, i, j, k);
      writes' := writes' + multiset(cellWrites);
    }
    VisitRow4(writes', nx, ny, nz, na, i, j);
  }

  /** The inner loop `for a in range(N+1)` of the y pass at cell (i, j, k). */
  method FillCellY(sch: Scheme, tempWx: array3<Mat>, wxy: array4<Mat>, i: int, j: int, k: int)
    returns (ghost writes: seq<(int, int, int, int)>)
    requires Valid(sch) && MatCells3(tempWx, sch.N + 1, sch.n) && tempWx.Length1 == wxy.Length1 + 2 * sch.N
    requires wxy.Length0 == tempWx.Length0 && wxy.Length2 == tempWx.Length2 && wxy.Length3 == sch.N + 1
    requires 0 <= i < wxy.Length0 && 0 <= j < wxy.Length1 && 0 <= k < wxy.Length2
    modifies wxy
    ensures forall a :: 0 <= a < wxy.Length3 ==> wxy[i, j, k, a] == CoeffsOf(sch, StencilsY(sch, tempWx, i, j, k, a))
    ensures forall i', j', k', a' :: 0 <= i' < wxy.Length0 && 0 <= j' < wxy.Length1 && 0 <= k' < wxy.Length2 &&
                                     0 <= a' < wxy.Length3 && (i' != i || j' != j || k' != k) ==>
      wxy[i', j', k', a'] == old(wxy[i', j', k', a'])
    // the entries assigned, in order: (i, j, k, 0), ..., (i, j, k, N)
    ensures writes == CellEntries(i, j, k, wxy.Length3)
  {
    var nx, ny, nz, na := wxy.Length0, wxy.Length1, wxy.Length2, wxy.Length3;
    writes := [];
    for a := 0 to na
      invariant forall a' :: 0 <= a' < a ==> wxy[i, j, k, a'] == CoeffsOf(sch, StencilsY(sch, tempWx, i, j, k, a'))
      invariant forall i', j', k', a' :: 0 <= i' < nx && 0 <= j' < ny && 0 <= k' < nz && 0 <= a' < na &&
                                         (i' != i || j' != j || k' != k || a <= a') ==>
        wxy[i', j', k', a'] == old(wxy[i', j', k', a'])
      invariant writes == CellEntries(i, j, k, a)
    {
      BlendEntryY(sch, tempWx, wxy, i, j, k, a);
      writes := writes + [(i, j, k, a)];
    }
  }

  /** The body of the y pass at cell (i, j, k) and coefficient row a: `Wxy[i, j, k, a] = coeffs(...)`. */
  method BlendEntryY(sch: Scheme, tempWx: array3<Mat>, wxy: array4<Mat>, i: int, j: int, k: int, a: int)
    requires Valid(sch) && MatCells3(tempWx, sch.N + 1, sch.n) && tempWx.Length1 == wxy.Length1 + 2 * sch.N
    requires wxy.Length0 == tempWx.Length0 && wxy.Length2 == tempWx.Length2 && wxy.Length3 == sch.N + 1
    requires 0 <= i < wxy.Length0 && 0 <= j < wxy.Length1 && 0 <= k < wxy.Length2 && 0 <= a < wxy.Length3
    modifies wxy
    ensures wxy[i, j, k, a] == CoeffsOf(sch, StencilsY(sch, tempWx, i, j, k, a))
    ensures forall i', j', k', a' :: 0 <= i' < wxy.Length0 && 0 <= j' < wxy.Length1 && 0 <= k' < wxy.Length2 &&
                                     0 <= a' < wxy.Length3 && (i' != i || j' != j || k' != k || a' != a) ==>
      wxy[i', j', k', a'] == old(wxy[i', j', k', a'])
  {
    var blended := Coeffs(sch, StencilsY(sch, tempWx, i, j, k, a));
    wxy[i, j, k, a] := blended;
  }

  // ---------------------------------------------------------------------------------------
  // The z pass (lines 81-96 of the source).

  /** The line `tempWxy[i, j, :, a, b]` of the xy reconstructions extended along z: coefficient
      row b of row a of every cell on the line. */
  function LineZ(sch: Scheme, tempWxy: array4<Mat>, i: int, j: int, a: int, b: int): (line: seq<Vec>)
    reads tempWxy
    requires MatCells4(tempWxy, sch.N + 1, sch.n)
    requires 0 <= i < tempWxy.Length0 && 0 <= j < tempWxy.Length1 && 0 <= a < tempWxy.Length3 && 0 <= b <= sch.N
    ensures |line| == tempWxy.Length2 && forall p :: 0 <= p < |line| ==> line[p] == tempWxy[i, j, p, a][b]
    ensures forall p :: 0 <= p < |line| ==> |line[p]| == sch.n
  {
    seq(tempWxy.Length2, p requires 0 <= p < tempWxy.Length2 && b < |tempWxy[i, j, p, a]| reads tempWxy =>
      tempWxy[i, j, p, a][b])
  }

  /** The stencils `[w1, w2, w3]` or `[w1, w2, w3, w4]` of cell (i, j, k) and coefficient rows
      (a, b) in the z pass: the slices `tempWxy[i, j, w.lo : w.hi, a, b]`, one per stencil window w. */
  function StencilsZ(sch: Scheme, tempWxy: array4<Mat>, i: int, j: int, k: int, a: int, b: int): (uList: seq<Mat>)
    reads tempWxy
    requires MatCells4(tempWxy, sch.N + 1, sch.n) && tempWxy.Length2 >= 2 * sch.N
    requires 0 <= i < tempWxy.Length0 && 0 <= j < tempWxy.Length1 && 0 <= k < tempWxy.Length2 - 2 * sch.N
    requires 0 <= a < tempWxy.Length3 && 0 <= b <= sch.N
    ensures StencilInputs(sch, uList)
  {
    var ws := StencilWindows(sch.N, k + sch.N);
    WindowsInsidePadded(sch.N, tempWxy.Length2 - 2 * sch.N, k);
    Slices(sch, LineZ(sch, tempWxy, i, j, a, b), ws)
  }

  /** Entry (i', j', k', a', b') is visited before entry (i, j, k, a, b) by the z pass. */
  predicate Before5(c: (int, int, int, int, int), i: int, j: int, k: int, a: int, b: int)
  {
    c.0 < i || (c.0 == i && (c.1 < j || (c.1 == j && (c.2 < k || (c.2 == k && (c.3 < a || (c.3 == a && c.4 < b)))))))
  }

  predicate InBox5(c: (int, int, int, int, int), nx: int, ny: int, nz: int, na: int, nb: int)
  {
    0 <= c.0 < nx && 0 <= c.1 < ny && 0 <= c.2 < nz && 0 <= c.3 < na && 0 <= c.4 < nb
  }

  /** `writes` holds, once each, exactly the entries of the nx x ny x nz x na x nb box visited
      before (i, j, k, 0, 0). */
  ghost predicate Visited5(writes: multiset<(int, int, int, int, int)>, nx: int, ny: int, nz: int, na: int, nb: int,
                           i: int, j: int, k: int)
  {
    forall c :: writes[c] == if InBox5(c, nx, ny, nz, na, nb) && Before5(c, i, j, k, 0, 0) then 1 else 0
  }

  /** The entries (i, j, k, a, 0), ..., (i, j, k, a, nb - 1), in the order the z pass assigns them. */
  function LineEntries(i: int, j: int, k: int, a: int, nb: nat): (es: seq<(int, int, int, int, int)>)
    ensures |es| == nb && forall b :: 0 <= b < nb ==> es[b] == (i, j, k, a, b)
  {
    seq(nb, b => (i, j, k, a, b))
  }

  /** The entries of cell (i, j, k) with a first index below na, in the order of
      `product(range(na), range(nb))`. */
  function BlockEntries(i: int, j: int, k: int, na: nat, nb: nat): (es: seq<(int, int, int, int, int)>)
  {
    if na == 0 then [] else BlockEntries(i, j, k, na - 1, nb) + LineEntries(i, j, k, na - 1, nb)
  }

  lemma {:induction false} LineEntriesOnce(i: int, j: int, k: int, a: int, nb: nat, c: (int, int, int, int, int))
    ensures multiset(LineEntries(i, j, k, a, nb))[c] ==
      if (c.0, c.1, c.2, c.3) == (i, j, k, a) && 0 <= c.4 < nb then 1 else 0
  {
    if nb > 0 {
      LineEntriesOnce(i, j, k, a, nb - 1, c);
      assert LineEntries(i, j, k, a, nb) == LineEntries(i, j, k, a, nb - 1) + [(i, j, k, a, nb - 1)];
    }
  }

  /** Each entry of cell (i, j, k) occurs once among its entries, and nothing else does. */
  lemma {:induction false} BlockEntriesOnce(i: int, j: int, k: int, na: nat, nb: nat, c: (int, int, int, int, int))
    ensures multiset(BlockEntries(i, j, k, na, nb))[c] ==
      if (c.0, c.1, c.2) == (i, j, k) && 0 <= c.3 < na && 0 <= c.4 < nb then 1 else 0
  {
    if na > 0 {
      BlockEntriesOnce(i, j, k, na - 1, nb, c);
      LineEntriesOnce(i, j, k, na - 1, nb, c);
    }
  }

  lemma VisitCell5(writes: multiset<(int, int, int, int, int)>, nx: int, ny: int, nz: int, na: nat, nb: nat,
                   i: int, j: int, k: int)
    requires Visited5(writes, nx, ny, nz, na, nb, i, j, k) && 0 <= i < nx && 0 <= j < ny && 0 <= k < nz
    ensures Visited5(writes + multiset(BlockEntries(i, j, k, na, nb)), nx, ny, nz, na, nb, i, j, k + 1)
  {
    var cell := multiset(BlockEntries(i, j, k, na, nb));
    forall c ensures (writes + cell)[c] == if InBox5(c, nx, ny, nz, na, nb) && Before5(c, i, j, k + 1, 0, 0) then 1 else 0 {
      BlockEntriesOnce(i, j, k, na, nb, c);
    }
  }

  lemma VisitRow5(writes: multiset<(int, int, int, int, int)>, nx: int, ny: int, nz: int, na: int, nb: int, i: int, j: int)
    requires Visited5(writes, nx, ny, nz, na, nb, i, j, nz)
    ensures Visited5(writes, nx, ny, nz, na, nb, i, j + 1, 0)
  {
    forall c ensures writes[c] == if InBox5(c, nx, ny, nz, na, nb) && Before5(c, i, j + 1, 0, 0, 0) then 1 else 0 {
      assert InBox5(c, nx, ny, nz, na, nb) ==> (Before5(c, i, j, nz, 0, 0) <==> Before5(c, i, j + 1, 0, 0, 0));
    }
  }

  lemma VisitPlane5(writes: multiset<(int, int, int, int, int)>, nx: int, ny: int, nz: int, na: int, nb: int, i: int)
    requires Visited5(writes, nx, ny, nz, na, nb, i, ny, 0)
    ensures Visited5(writes, nx, ny, nz, na, nb, i + 1, 0, 0)
  {
    forall c ensures writes[c] == if InBox5(c, nx, ny, nz, na, nb) && Before5(c, i + 1, 0, 0, 0, 0) then 1 else 0 {
      assert InBox5(c, nx, ny, nz, na, nb) ==> (Before5(c, i, ny, 0, 0, 0) <==> Before5(c, i + 1, 0, 0, 0, 0));
    }
  }

  /** The z pass: `Wxyz[i, j, k, a, b] = coeffs(...)` for every cell, in the order of
      `product(range(nx), range(ny), range(nz))`, and every pair of coefficient rows (a, b) of its xy
      reconstruction. The ghost multiset `writes` records the entries assigned, once per assignment. */
  method SweepZ(sch: Scheme, tempWxy: array4<Mat>, nz: nat)
    returns (wxyz: array5<Mat>, ghost writes: multiset<(int, int, int, int, int)>)
    requires Valid(sch) && tempWxy.Length2 == nz + 2 * sch.N && tempWxy.Length3 == sch.N + 1
    requires MatCells4(tempWxy, sch.N + 1, sch.n)
    ensures fresh(wxyz)
    ensures wxyz.Length0 == tempWxy.Length0 && wxyz.Length1 == tempWxy.Length1 && wxyz.Length2 == nz
    ensures wxyz.Length3 == sch.N + 1 && wxyz.Length4 == sch.N + 1
    ensures forall i, j, k, a, b :: 0 <= i < wxyz.Length0 && 0 <= j < wxyz.Length1 && 0 <= k < nz &&
                                    0 <= a <= sch.N && 0 <= b <= sch.N ==>
      wxyz[i, j, k, a, b] == CoeffsOf(sch, StencilsZ(sch, tempWxy, i, j, k, a, b))
    // every entry of Wxyz is assigned exactly once, and nothing outside it is
    ensures forall c :: writes[c] == if InBox5(c, wxyz.Length0, wxyz.Length1, wxyz.Length2, wxyz.Length3, wxyz.Length4)
                                     then 1 else 0
  {
    var nx, ny, na := tempWxy.Length0, tempWxy.Length1, sch.N + 1;
    wxyz := new Mat[nx, ny, nz, na, na]((i, j, k, a, b) => ZeroMat(sch.N + 1, sch.n));
    writes := multiset{};
    for i := 0 to nx
      invariant forall i', j', k', a', b' :: 0 <= i' < i && 0 <= j' < ny && 0 <= k' < nz && 0 <= a' < na && 0 <= b' < na ==>
        wxyz[i', j', k', a', b'] == CoeffsOf(sch, StencilsZ(sch, tempWxy, i', j', k', a', b'))
      invariant Visited5(writes, nx, ny, nz, na, na, i, 0, 0)
    {
      for j := 0 to ny
        invariant forall i', j', k', a', b' :: 0 <= i' < nx && 0 <= j' < ny && 0 <= k' < nz && 0 <= a' < na && 0 <= b' < na &&
                                               (i' < i || (i' == i && j' < j)) ==>
          wxyz[i', j', k', a', b'] == CoeffsOf(sch, StencilsZ(sch, tempWxy, i', j', k', a', b'))
        invariant Visited5(writes, nx, ny, nz, na, na, i, j, 0)
      {
        writes := SweepRowZ(sch, tempWxy, wxyz, i, j, writes);
      }
      VisitPlane5(writes, nx, ny, nz, na, na, i);
    }
    assert Visited5(writes, nx, ny, nz, na, na, nx, 0, 0);
  }

  /** One row of the z pass: the cells (i, j, 0), ..., (i, j, nz - 1), every pair of coefficient
      rows of each. */
  method SweepRowZ(sch: Scheme, tempWxy: array4<Mat>, wxyz: array5<Mat>, i: int, j: int,
                   ghost writes: multiset<(int, int, int, int, int)>)
    returns (ghost writes': multiset<(int, int, int, int, int)>)
    requires Valid(sch) && MatCells4(tempWxy, sch.N + 1, sch.n) && tempWxy.Length2 == wxyz.Length2 + 2 * sch.N
    requires wxyz.Length0 == tempWxy.Length0 && wxyz.Length1 == tempWxy.Length1 && tempWxy.Length3 == sch.N + 1
    requires wxyz.Length3 == sch.N + 1 && wxyz.Length4 == sch.N + 1
    requires 0 <= i < wxyz.Length0 && 0 <= j < wxyz.Length1
    requires Visited5(writes, wxyz.Length0, wxyz.Length1, wxyz.Length2, wxyz.Length3, wxyz.Length4, i, j, 0)
    modifies wxyz
    ensures forall k, a, b :: 0 <= k < wxyz.Length2 && 0 <= a < wxyz.Length3 && 0 <= b < wxyz.Length4 ==>
      wxyz[i, j, k, a, b] == CoeffsOf(sch, StencilsZ(sch, tempWxy, i, j, k, a, b))
    ensures forall i', j', k', a', b' :: 0 <= i' < wxyz.Length0 && 0 <= j' < wxyz.Length1 && 0 <= k' < wxyz.Length2 &&
                                         0 <= a' < wxyz.Length3 && 0 <= b' < wxyz.Length4 && (i' != i || j' != j) ==>
      wxyz[i', j', k', a', b'] == old(wxyz[i', j', k', a', b'])
    ensures Visited5(writes', wxyz.Length0, wxyz.Length1, wxyz.Length2, wxyz.Length3, wxyz.Length4, i, j + 1, 0)
  {
    var nx, ny, nz, na := wxyz.Length0, wxyz.Length1, wxyz.Length2, wxyz.Length3;
    writes' := writes;
    for k := 0 to nz
      invariant forall k', a', b' :: 0 <= k' < k && 0 <= a' < na && 0 <= b' < na ==>
        wxyz[i, j, k', a', b'] == CoeffsOf(sch, StencilsZ(sch, tempWxy, i, j, k', a', b'))
      invariant forall i', j', k', a', b' :: 0 <= i' < nx && 0 <= j' < ny && 0 <= k' < nz && 0 <= a' < na && 0 <= b' < na &&
                                             (i' != i || j' != j || k <= k') ==>
        wxyz[i', j', k', a', b'] == old(wxyz[i', j', k', a', b'])
      invariant Visited5(writes', nx, ny, nz, na, na, i, j, k)
    {
      var cellWrites := FillCellZ(sch, tempWxy, wxyz, i, j, k);
      VisitCell5(writes', nx, ny, nz, na, na, i, j, k);
      writes' := writes' + multiset(cellWrites);
    }
    VisitRow5(writes', nx, ny, nz, na, na, i, j);
  }

  /** The inner loop `for a, b in product(range(N+1), range(N+1))` of the z pass at cell (i, j, k). */
  method FillCellZ(sch: Scheme, tempWxy: array4<Mat>, wxyz: array5<Mat>, i: int, j: int, k: int)
    returns (ghost writes: seq<(int, int, int, int, int)>)
    requires Valid(sch) && MatCells4(tempWxy, sch.N + 1, sch.n) && tempWxy.Length2 == wxyz.Length2 + 2 * sch.N
    requires wxyz.Length0 == tempWxy.Length0 && wxyz.Length1 == tempWxy.Length1 && tempWxy.Length3 == sch.N + 1
    requires wxyz.Length3 == sch.N + 1 && wxyz.Length4 == sch.N + 1
    requires 0 <= i < wxyz.Length0 && 0 <= j < wxyz.Length1 && 0 <= k < wxyz.Length2
    modifies wxyz
    ensures forall a, b :: 0 <= a < wxyz.Length3 && 0 <= b < wxyz.Length4 ==>
      wxyz[i, j, k, a, b] == CoeffsOf(sch, StencilsZ(sch, tempWxy, i, j, k, a, b))
    ensures forall i', j', k', a', b' :: 0 <= i' < wxyz.Length0 && 0 <= j' < wxyz.Length1 && 0 <= k' < wxyz.Length2 &&
                                         0 <= a' < wxyz.Length3 && 0 <= b' < wxyz.Length4 && (i' != i || j' != j || k' != k) ==>
      wxyz[i', j', k', a', b'] == old(wxyz[i', j', k', a', b'])
    // the entries assigned, in order: (i, j, k, 0, 0), (i, j, k, 0, 1), ..., (i, j, k, N, N)
    ensures writes == BlockEntries(i, j, k, wxyz.Length3, wxyz.Length4)
  {
    var nx, ny, nz, na := wxyz.Length0, wxyz.Length1, wxyz.Length2, wxyz.Length3;
    writes := [];
    for a := 0 to na
      invariant forall a', b' :: 0 <= a' < a && 0 <= b' < na ==>
        wxyz[i, j, k, a', b'] == CoeffsOf(sch, StencilsZ(sch, tempWxy, i, j, k, a', b'))
      invariant forall i', j', k', a', b' :: 0 <= i' < nx && 0 <= j' < ny && 0 <= k' < nz && 0 <= a' < na && 0 <= b' < na &&
                                             (i' != i || j' != j || k' != k || a <= a') ==>
        wxyz[i', j', k', a', b'] == old(wxyz[i', j', k', a', b'])
      invariant writes == BlockEntries(i, j, k, a, na)
    {
      var lineWrites := FillLineZ(sch, tempWxy, wxyz, i, j, k, a);
      writes := writes + lineWrites;
    }
  }

  /** The entries (i, j, k, a, 0), ..., (i, j, k, a, N) of the z pass. */
  method FillLineZ(sch: Scheme, tempWxy: array4<Mat>, wxyz: array5<Mat>, i: int, j: int, k: int, a: int)
    returns (ghost writes: seq<(int, int, int, int, int)>)
    requires Valid(sch) && MatCells4(tempWxy, sch.N + 1, sch.n) && tempWxy.Length2 == wxyz.Length2 + 2 * sch.N
    requires wxyz.Length0 == tempWxy.Length0 && wxyz.Length1 == tempWxy.Length1 && tempWxy.Length3 == sch.N + 1
    requires wxyz.Length3 == sch.N + 1 && wxyz.Length4 == sch.N + 1
    requires 0 <= i < wxyz.Length0 && 0 <= j < wxyz.Length1 && 0 <= k < wxyz.Length2 && 0 <= a < wxyz.Length3
    modifies wxyz
    ensures forall b :: 0 <= b < wxyz.Length4 ==> wxyz[i, j, k, a, b] == CoeffsOf(sch, StencilsZ(sch, tempWxy, i, j, k, a, b))
    ensures forall i', j', k', a', b' :: 0 <= i' < wxyz.Length0 && 0 <= j' < wxyz.Length1 && 0 <= k' < wxyz.Length2 &&
                                         0 <= a' < wxyz.Length3 && 0 <= b' < wxyz.Length4 &&
                                         (i' != i || j' != j || k' != k || a' != a) ==>
      wxyz[i', j', k', a', b'] == old(wxyz[i', j', k', a', b'])
    ensures writes == LineEntries(i, j, k, a, wxyz.Length4)
  {
    var nx, ny, nz, na := wxyz.Length0, wxyz.Length1, wxyz.Length2, wxyz.Length3;
    writes := [];
    for b := 0 to na
      invariant forall b' :: 0 <= b' < b ==> wxyz[i, j, k, a, b'] == CoeffsOf(sch, StencilsZ(sch, tempWxy, i, j, k, a, b'))
      invariant forall i', j', k', a', b' :: 0 <= i' < nx && 0 <= j' < ny && 0 <= k' < nz && 0 <= a' < na && 0 <= b' < na &&
                                             (i' != i || j' != j || k' != k || a' != a || b <= b') ==>
        wxyz[i', j', k', a', b'] == old(wxyz[i', j', k', a', b'])
      invariant writes == LineEntries(i, j, k, a, b)
    {
      BlendEntryZ(sch, tempWxy, wxyz, i, j, k, a, b);
      writes := writes + [(i, j, k, a, b)];
    }
  }

  /** The body of the z pass at cell (i, j, k) and coefficient rows (a, b):
      `Wxyz[i, j, k, a, b] = coeffs(...)`. */
  method BlendEntryZ(sch: Scheme, tempWxy: array4<Mat>, wxyz: array5<Mat>, i: int, j: int, k: int, a: int, b: int)
    requires Valid(sch) && MatCells4(tempWxy, sch.N + 1, sch.n) && tempWxy.Length2 == wxyz.Length2 + 2 * sch.N
    requires wxyz.Length0 == tempWxy.Length0 && wxyz.Length1 == tempWxy.Length1 && tempWxy.Length3 == sch.N + 1
    requires wxyz.Length3 == sch.N + 1 && wxyz.Length4 == sch.N + 1
    requires 0 <= i < wxyz.Length0 && 0 <= j < wxyz.Length1 && 0 <= k < wxyz.Length2
    requires 0 <= a < wxyz.Length3 && 0 <= b < wxyz.Length4
    modifies wxyz
    ensures wxyz[i, j, k, a, b] == CoeffsOf(sch, StencilsZ(sch, tempWxy, i, j, k, a, b))
    ensures forall i', j', k', a', b' :: 0 <= i' < wxyz.Length0 && 0 <= j' < wxyz.Length1 && 0 <= k' < wxyz.Length2 &&
                                         0 <= a' < wxyz.Length3 && 0 <= b' < wxyz.Length4 &&
                                         (i' != i || j' != j || k' != k || a' != a || b' != b) ==>
      wxyz[i', j', k', a', b'] == old(wxyz[i', j', k', a', b'])
  {
    var blended := Coeffs(sch, StencilsZ(sch, tempWxy, i, j, k, a, b));
    wxyz[i, j, k, a, b] := blended;
  }

  // ---------------------------------------------------------------------------------------
  // What `reconstruct` computes, as functions of the input field u.

  /** The x reconstruction of cell (i, j, k): `coeffs` of the stencils around cell i of the
      line `u[:, j, k]` extended along x. */
  ghost function WxAt(sch: Scheme, u: array3<Vec>, bc: Boundaries, i: int, j: int, k: int): (r: Mat)
    reads u
    requires Valid(sch) && VecCells(u, sch.n)
    requires 0 <= i < u.Length0 && 0 <= j < u.Length1 && 0 <= k < u.Length2
    ensures IsMat(r, sch.N + 1, sch.n)
  {
    WindowsInsidePadded(sch.N, u.Length0, i);
    CoeffsOf(sch, Slices(sch, ExtendedLine(LineX(u, j, k), sch.N, bc.x), StencilWindows(sch.N, i + sch.N)))
  }

  /** Coefficient row a of the x reconstructions along the line (i, :, k). */
  ghost function WxLine(sch: Scheme, u: array3<Vec>, bc: Boundaries, i: int, k: int, a: int): (line: seq<Vec>)
    reads u
    requires Valid(sch) && VecCells(u, sch.n)
    requires 0 <= i < u.Length0 && 0 <= k < u.Length2 && 0 <= a <= sch.N
    ensures |line| == u.Length1 && forall q :: 0 <= q < |line| ==> line[q] == WxAt(sch, u, bc, i, q, k)[a]
    ensures forall q :: 0 <= q < |line| ==> |line[q]| == sch.n
  {
    seq(u.Length1, q requires 0 <= q < u.Length1 && VecCells(u, sch.n) reads u => WxAt(sch, u, bc, i, q, k)[a])
  }

  /** The xy reconstruction of cell (i, j, k), row a: `coeffs` of the stencils around cell j of
      the x reconstructions along (i, :, k), extended along y. */
  ghost function WxyAt(sch: Scheme, u: array3<Vec>, bc: Boundaries, i: int, j: int, k: int, a: int): (r: Mat)
    reads u
    requires Valid(sch) && VecCells(u, sch.n)
    requires 0 <= i < u.Length0 && 0 <= j < u.Length1 && 0 <= k < u.Length2 && 0 <= a <= sch.N
    ensures IsMat(r, sch.N + 1, sch.n)
  {
    WindowsInsidePadded(sch.N, u.Length1, j);
    CoeffsOf(sch, Slices(sch, ExtendedLine(WxLine(sch, u, bc, i, k, a), sch.N, bc.y), StencilWindows(sch.N, j + sch.N)))
  }

  /** Coefficient row b of row a of the xy reconstructions along the line (i, j, :). */
  ghost function WxyLine(sch: Scheme, u: array3<Vec>, bc: Boundaries, i: int, j: int, a: int, b: int): (line: seq<Vec>)
    reads u
    requires Valid(sch) && VecCells(u, sch.n)
    requires 0 <= i < u.Length0 && 0 <= j < u.Length1 && 0 <= a <= sch.N && 0 <= b <= sch.N
    ensures |line| == u.Length2 && forall q :: 0 <= q < |line| ==> line[q] == WxyAt(sch, u, bc, i, j, q, a)[b]
    ensures forall q :: 0 <= q < |line| ==> |line[q]| == sch.n
  {
    seq(u.Length2, q requires 0 <= q < u.Length2 && VecCells(u, sch.n) reads u => WxyAt(sch, u, bc, i, j, q, a)[b])
  }

  /** The xyz reconstruction of cell (i, j, k), rows (a, b): `coeffs` of the stencils around cell k
      of the xy reconstructions along (i, j, :), extended along z. */
  ghost function WxyzAt(sch: Scheme, u: array3<Vec>, bc: Boundaries, i: int, j: int, k: int, a: int, b: int): (r: Mat)
    reads u
    requires Valid(sch) && VecCells(u, sch.n)
    requires 0 <= i < u.Length0 && 0 <= j < u.Length1 && 0 <= k < u.Length2 && 0 <= a <= sch.N && 0 <= b <= sch.N
    ensures IsMat(r, sch.N + 1, sch.n)
  {
    WindowsInsidePadded(sch.N, u.Length2, k);
    CoeffsOf(sch, Slices(sch, ExtendedLine(WxyLine(sch, u, bc, i, j, a, b), sch.N, bc.z), StencilWindows(sch.N, k + sch.N)))
  }

  // ---------------------------------------------------------------------------------------
  // The passes and the driver (lines 37-98 of the source).

  /** Lines 44-58: extend u along x and reconstruct every cell along x. */
  method PassX(sch: Scheme, u: array3<Vec>, bc: Boundaries) returns (wx: array3<Mat>)
    requires Valid(sch) && VecCells(u, sch.n) && u.Length0 > 0
    ensures fresh(wx)
    ensures wx.Length0 == u.Length0 && wx.Length1 == u.Length1 && wx.Length2 == u.Length2
    ensures forall i, j, k :: 0 <= i < wx.Length0 && 0 <= j < wx.Length1 && 0 <= k < wx.Length2 ==>
      wx[i, j, k] == WxAt(sch, u, bc, i, j, k)
  {
    var tempu := ExtendAxis0(u, sch.N, bc.x);
    assert VecCells(tempu, sch.n);
    ghost var writes;
    wx, writes := SweepX(sch, tempu, u.Length0);
    forall i, j, k | 0 <= i < wx.Length0 && 0 <= j < wx.Length1 && 0 <= k < wx.Length2
      ensures wx[i, j, k] == WxAt(sch, u, bc, i, j, k)
    {
      ExtendedLineX(sch, u, tempu, bc, j, k);
    }
  }

  /** The line of the field extended along x is the extended line of the field. */
  lemma ExtendedLineX(sch: Scheme, u: array3<Vec>, tempu: array3<Vec>, bc: Boundaries, j: int, k: int)
    requires u.Length0 > 0 && tempu.Length0 == u.Length0 + 2 * sch.N
    requires tempu.Length1 == u.Length1 && tempu.Length2 == u.Length2
    requires 0 <= j < u.Length1 && 0 <= k < u.Length2
    requires forall p :: 0 <= p < tempu.Length0 ==> tempu[p, j, k] == u[SourceIndex(bc.x, sch.N, p, u.Length0), j, k]
    ensures LineX(tempu, j, k) == ExtendedLine(LineX(u, j, k), sch.N, bc.x)
  {
  }

  /** Lines 62-77: extend the x reconstructions along y and reconstruct every cell and coefficient
      row along y. */
  method PassY(sch: Scheme, u: array3<Vec>, bc: Boundaries, wx: array3<Mat>) returns (wxy: array4<Mat>)
    requires Valid(sch) && VecCells(u, sch.n) && u.Length1 > 0
    requires wx.Length0 == u.Length0 && wx.Length1 == u.Length1 && wx.Length2 == u.Length2
    requires forall i, j, k :: 0 <= i < wx.Length0 && 0 <= j < wx.Length1 && 0 <= k < wx.Length2 ==>
      wx[i, j, k] == WxAt(sch, u, bc, i, j, k)
    ensures fresh(wxy)
    ensures wxy.Length0 == u.Length0 && wxy.Length1 == u.Length1 && wxy.Length2 == u.Length2 && wxy.Length3 == sch.N + 1
    ensures forall i, j, k, a :: 0 <= i < wxy.Length0 && 0 <= j < wxy.Length1 && 0 <= k < wxy.Length2 && 0 <= a < wxy.Length3 ==>
      wxy[i, j, k, a] == WxyAt(sch, u, bc, i, j, k, a)
  {
    var tempWx := ExtendAxis1(wx, sch.N, bc.y);
    assert MatCells3(tempWx, sch.N + 1, sch.n);
    ghost var writes;
    wxy, writes := SweepY(sch, tempWx, u.Length1);
    forall i, j, k, a | 0 <= i < wxy.Length0 && 0 <= j < wxy.Length1 && 0 <= k < wxy.Length2 && 0 <= a < wxy.Length3
      ensures wxy[i, j, k, a] == WxyAt(sch, u, bc, i, j, k, a)
    {
      ExtendedLineY(sch, u, bc, wx, tempWx, i, k, a);
    }
  }

  /** The line of the x reconstructions extended along y is the extended line of the x
      reconstructions. */
  lemma ExtendedLineY(sch: Scheme, u: array3<Vec>, bc: Boundaries, wx: array3<Mat>, tempWx: array3<Mat>, i: int, k: int, a: int)
    requires Valid(sch) && VecCells(u, sch.n) && u.Length1 > 0
    requires wx.Length0 == u.Length0 && wx.Length1 == u.Length1 && wx.Length2 == u.Length2
    requires tempWx.Length0 == u.Length0 && tempWx.Length1 == u.Length1 + 2 * sch.N && tempWx.Length2 == u.Length2
    requires 0 <= i < u.Length0 && 0 <= k < u.Length2 && 0 <= a <= sch.N
    requires forall q :: 0 <= q < wx.Length1 ==> wx[i, q, k] == WxAt(sch, u, bc, i, q, k)
    requires forall p :: 0 <= p < tempWx.Length1 ==> tempWx[i, p, k] == wx[i, SourceIndex(bc.y, sch.N, p, wx.Length1), k]
    requires MatCells3(tempWx, sch.N + 1, sch.n)
    ensures LineY(sch, tempWx, i, k, a) == ExtendedLine(WxLine(sch, u, bc, i, k, a), sch.N, bc.y)
  {
  }

  /** Lines 81-96: extend the xy reconstructions along z and reconstruct every cell and pair of
      coefficient rows along z. */
  method PassZ(sch: Scheme, u: array3<Vec>, bc: Boundaries, wxy: array4<Mat>) returns (wxyz: array5<Mat>)
    requires Valid(sch) && VecCells(u, sch.n) && u.Length2 > 0
    requires wxy.Length0 == u.Length0 && wxy.Length1 == u.Length1 && wxy.Length2 == u.Length2 && wxy.Length3 == sch.N + 1
    requires forall i, j, k, a :: 0 <= i < wxy.Length0 && 0 <= j < wxy.Length1 && 0 <= k < wxy.Length2 && 0 <= a < wxy.Length3 ==>
      wxy[i, j, k, a] == WxyAt(sch, u, bc, i, j, k, a)
    ensures fresh(wxyz)
    ensures wxyz.Length0 == u.Length0 && wxyz.Length1 == u.Length1 && wxyz.Length2 == u.Length2
    ensures wxyz.Length3 == sch.N + 1 && wxyz.Length4 == sch.N + 1
    ensures forall i, j, k, a, b :: 0 <= i < wxyz.Length0 && 0 <= j < wxyz.Length1 && 0 <= k < wxyz.Length2 &&
                                    0 <= a < wxyz.Length3 && 0 <= b < wxyz.Length4 ==>
      wxyz[i, j, k, a, b] == WxyzAt(sch, u, bc, i, j, k, a, b)
  {
    var tempWxy := ExtendAxis2(wxy, sch.N, bc.z);
    assert MatCells4(tempWxy, sch.N + 1, sch.n);
    ghost var writes;
    wxyz, writes := SweepZ(sch, tempWxy, u.Length2);
    forall i, j, k, a, b | 0 <= i < wxyz.Length0 && 0 <= j < wxyz.Length1 && 0 <= k < wxyz.Length2 &&
                           0 <= a < wxyz.Length3 && 0 <= b < wxyz.Length4
      ensures wxyz[i, j, k, a, b] == WxyzAt(sch, u, bc, i, j, k, a, b)
    {
      ExtendedLineZ(sch, u, bc, wxy, tempWxy, i, j, a, b);
    }
  }

  /** The line of the xy reconstructions extended along z is the extended line of the xy
      reconstructions. */
  lemma ExtendedLineZ(sch: Scheme, u: array3<Vec>, bc: Boundaries, wxy: array4<Mat>, tempWxy: array4<Mat>,
                      i: int, j: int, a: int, b: int)
    requires Valid(sch) && VecCells(u, sch.n) && u.Length2 > 0
    requires wxy.Length0 == u.Length0 && wxy.Length1 == u.Length1 && wxy.Length2 == u.Length2 && wxy.Length3 == sch.N + 1
    requires tempWxy.Length0 == u.Length0 && tempWxy.Length1 == u.Length1 && tempWxy.Length2 == u.Length2 + 2 * sch.N
    requires tempWxy.Length3 == sch.N + 1
    requires 0 <= i < u.Length0 && 0 <= j < u.Length1 && 0 <= a <= sch.N && 0 <= b <= sch.N
    requires forall q :: 0 <= q < wxy.Length2 ==> wxy[i, j, q, a] == WxyAt(sch, u, bc, i, j, q, a)
    requires forall p :: 0 <= p < tempWxy.Length2 ==> tempWxy[i, j, p, a] == wxy[i, j, SourceIndex(bc.z, sch.N, p, wxy.Length2), a]
    requires MatCells4(tempWxy, sch.N + 1, sch.n)
    ensures LineZ(sch, tempWxy, i, j, a, b) == ExtendedLine(WxyLine(sch, u, bc, i, j, a, b), sch.N, bc.z)
  {
  }

  /** What `reconstruct` returns: Wx, Wxy or Wxyz, by the number of dimensions, or nothing
      (Python's None) when ndim is not 1, 2 or 3. */
  datatype Reconstruction =
    | Wx(wx: array3<Mat>)
    | Wxy(wxy: array4<Mat>)
    | Wxyz(wxyz: array5<Mat>)
    | NoResult

  /** `reconstruct(u)`: the x pass, then for ndim >= 2 the y pass on its result, then for
      ndim >= 3 the z pass on that; it returns after the pass whose number is ndim. The ghost
      out-parameter `passes` counts the passes run. Every axis that a pass extends must hold a
      cell for the boundary policy to copy from. */
  method Reconstruct(sch: Scheme, u: array3<Vec>, bc: Boundaries) returns (out: Reconstruction, ghost passes: nat)
    requires Valid(sch) && VecCells(u, sch.n)
    requires u.Length0 > 0
    requires sch.ndim != 1 ==> u.Length1 > 0
    requires sch.ndim != 1 && sch.ndim != 2 ==> u.Length2 > 0
    ensures passes == if sch.ndim == 1 || sch.ndim == 2 then sch.ndim else 3
    ensures out.Wx? <==> sch.ndim == 1
    ensures out.Wxy? <==> sch.ndim == 2
    ensures out.Wxyz? <==> sch.ndim == 3
    ensures out.NoResult? <==> sch.ndim !in {1, 2, 3}
    // shape [nx, ny, nz, N+1, n]
    ensures out.Wx? ==> fresh(out.wx) && out.wx.Length0 == u.Length0 && out.wx.Length1 == u.Length1 &&
                        out.wx.Length2 == u.Length2 && MatCells3(out.wx, sch.N + 1, sch.n)
    ensures out.Wx? ==> forall i, j, k :: 0 <= i < u.Length0 && 0 <= j < u.Length1 && 0 <= k < u.Length2 ==>
      out.wx[i, j, k] == WxAt(sch, u, bc, i, j, k)
    // shape [nx, ny, nz, N+1, N+1, n]
    ensures out.Wxy? ==> fresh(out.wxy) && out.wxy.Length0 == u.Length0 && out.wxy.Length1 == u.Length1 &&
                         out.wxy.Length2 == u.Length2 && out.wxy.Length3 == sch.N + 1 && MatCells4(out.wxy, sch.N + 1, sch.n)
    ensures out.Wxy? ==> forall i, j, k, a :: 0 <= i < u.Length0 && 0 <= j < u.Length1 && 0 <= k < u.Length2 && 0 <= a <= sch.N ==>
      out.wxy[i, j, k, a] == WxyAt(sch, u, bc, i, j, k, a)
    // shape [nx, ny, nz, N+1, N+1, N+1, n]
    ensures out.Wxyz? ==> fresh(out.wxyz) && out.wxyz.Length0 == u.Length0 && out.wxyz.Length1 == u.Length1 &&
                          out.wxyz.Length2 == u.Length2 && out.wxyz.Length3 == sch.N + 1 && out.wxyz.Length4 == sch.N + 1 &&
                          MatCells5(out.wxyz, sch.N + 1, sch.n)
    ensures out.Wxyz? ==> forall i, j, k, a, b ::
      0 <= i < u.Length0 && 0 <= j < u.Length1 && 0 <= k < u.Length2 && 0 <= a <= sch.N && 0 <= b <= sch.N ==>
      out.wxyz[i, j, k, a, b] == WxyzAt(sch, u, bc, i, j, k, a, b)
  {
    var wx := PassX(sch, u, bc);
    passes := 1;
    if sch.ndim == 1 {
      return Wx(wx), passes;
    }
    var wxy := PassY(sch, u, bc, wx);
    passes := 2;
    if sch.ndim == 2 {
      return Wxy(wxy), passes;
    }
    var wxyz := PassZ(sch, u, bc, wxy);
    passes := 3;
    if sch.ndim == 3 {
      return Wxyz(wxyz), passes;
    }
    return NoResult, passes;
  }
}
