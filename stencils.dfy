/** The stencil set of the WENO reconstruction: how many candidate stencils there are,
    their linear weights, and the window of the ghost-extended axis each one reads.
    All of it is fixed by the parity of the reconstruction order N. */
module StencilSet {

  /** `nStencils`: four stencils (two centred, two biased) for odd N, three (one centred,
      two biased) for even N. */
  function NStencils(N: nat): (count: nat)
    ensures count == 3 || count == 4
    ensures count == 4 <==> N % 2 == 1
  {
    if N % 2 == 1 then 4 else 3
  }

  /** `lamList`: the linear weight of each stencil, in stencil order. */
  function LamList(N: nat, lamC: real, lamS: real): (lamList: seq<real>)
    ensures |lamList| == NStencils(N)
    // the centred stencils come first and take lamC; the last two are the biased ones and take lamS
    ensures forall s :: 0 <= s < |lamList| ==>
      lamList[s] == if s < |lamList| - 2 then lamC else lamS
  {
    if N % 2 == 1 then [lamC, lamC, lamS, lamS] else [lamC, lamS, lamS]
  }

  /** A slice `lo : hi` of one axis of a ghost-extended array: the cells lo, ..., hi - 1. */
  datatype Window = Window(lo: int, hi: int)

  /** The windows of the candidate stencils for the cell at position ii of the
      ghost-extended axis, in stencil order: the centred window(s), then the left-biased
      window ending at ii, then the right-biased window starting at ii. */
  function StencilWindows(N: nat, ii: int): (ws: seq<Window>)
    ensures |ws| == NStencils(N)
    // every stencil has N + 1 cells, contains the target cell and reaches at most N cells from it
    ensures forall s :: 0 <= s < |ws| ==> ws[s].hi - ws[s].lo == N + 1
    ensures forall s :: 0 <= s < |ws| ==> ii - N <= ws[s].lo <= ii < ws[s].hi <= ii + N + 1
    // the biased stencils: the left one ends at ii, the right one starts at ii
    ensures ws[|ws| - 2] == Window(ii - N, ii + 1) && ws[|ws| - 1] == Window(ii, ii + N + 1)
    // the centred stencils reach at most ceil(N / 2) cells to either side of ii
    ensures forall s :: 0 <= s < |ws| - 2 ==> ii - ws[s].lo <= (N + 1) / 2 && ws[s].hi - 1 - ii <= (N + 1) / 2
    // odd N: the first centred stencil leans right, the second one left
    ensures N % 2 == 1 ==> ii - ws[0].lo < ws[0].hi - 1 - ii
    // even N: the centred stencil is symmetric about ii
    ensures N % 2 == 0 ==> ii - ws[0].lo == ws[0].hi - 1 - ii
    // odd N: the two centred stencils are mirror images of each other about ii
    ensures N % 2 == 1 ==> ii - ws[0].lo == ws[1].hi - 1 - ii && ws[0].hi - 1 - ii == ii - ws[1].lo
    ensures N % 2 == 1 ==> ws[0] != ws[1]
  {
    var floorHalfN := N / 2;
    var ceilHalfN := (N + 1) / 2;
    if NStencils(N) == 3 then
      [Window(ii - floorHalfN, ii + floorHalfN + 1), Window(ii - N, ii + 1), Window(ii, ii + N + 1)]
    else
      [Window(ii - floorHalfN, ii + ceilHalfN + 1), Window(ii - ceilHalfN, ii + floorHalfN + 1),
       Window(ii - N, ii + 1), Window(ii, ii + N + 1)]
  }

  /** For a cell i of an axis with nAxis cells, extended by N ghost cells on each side so
      that cell i sits at ii = i + N, every stencil window lies inside the extended axis. */
  lemma WindowsInsidePadded(N: nat, nAxis: nat, i: int)
    requires 0 <= i < nAxis
    ensures forall w :: w in StencilWindows(N, i + N) ==> 0 <= w.lo && w.hi <= nAxis + 2 * N
  {
    var ws := StencilWindows(N, i + N);
    forall w | w in ws ensures 0 <= w.lo && w.hi <= nAxis + 2 * N {
      var s :| 0 <= s < |ws| && ws[s] == w;
    }
  }
}
