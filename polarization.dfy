/** The binning step of `pts.visual.plotpolarization.plotPolarization`: how the pixels of a frame are
    grouped into square bins (the remainder pixels dropped at both ends), where the bin centres
    lie, which wavelength frames are plotted, and the nested loops that sum the Stokes frames bin
    by bin. Pixel values are reals; the division of two floating-point sums is a parameter. */
module PolarizationMaps {
  import Arith

  // ---------- bin geometry ------------------------------------------------------------------

  /** `orLen % bin`: the pixels that do not fill a whole bin. */
  function Drop(n: nat, bin: nat): nat
    requires bin > 0
  {
    n % bin
  }

  /** `drop // 2`: the pixels dropped at the low end. */
  function Start(n: nat, bin: nat): nat
    requires bin > 0
  {
    Drop(n, bin) / 2
  }

  /** `start` pixels are dropped at the low end and `drop - start` at the high end, around
      `n div bin` whole bins. */
  lemma DropSplit(n: nat, bin: nat)
    requires bin > 0
    ensures 0 <= Start(n, bin) <= Drop(n, bin) < bin
    ensures n == Start(n, bin) + bin * (n / bin) + (Drop(n, bin) - Start(n, bin))
  {
    Arith.DivSplit(n, bin);
    assert (n / bin) * bin == bin * (n / bin);
  }

  /** The first pixel of bin `k`. */
  function BinBegin(start: nat, bin: nat, k: nat): nat {
    start + bin * k
  }

  /** One past the last pixel of bin `k`. */
  function BinEnd(start: nat, bin: nat, k: nat): nat {
    start + bin * (k + 1)
  }

  /** Each bin holds `bin` pixels, and bin `k + 1` starts where bin `k` ends. */
  lemma BinsAdjacent(start: nat, bin: nat, k: nat)
    ensures BinEnd(start, bin, k) == BinBegin(start, bin, k) + bin
    ensures BinEnd(start, bin, k) == BinBegin(start, bin, k + 1)
  {
    assert bin * (k + 1) == bin * k + bin;
  }

  /** Every one of the `n div bin` bins lies inside the frame. */
  lemma BinInside(n: nat, bin: nat, k: nat)
    requires bin > 0 && k < n / bin
    ensures BinBegin(Start(n, bin), bin, k) < BinEnd(Start(n, bin), bin, k) <= n
  {
    DropSplit(n, bin);
    BinsAdjacent(Start(n, bin), bin, k);
    Arith.MulLe(bin, k + 1, n / bin);
  }

  /** The bins cover exactly the pixels from `start` to `start + n - drop`, each pixel in one bin:
      the bin of pixel `i` is `(i - start) div bin`. */
  lemma BinOf(n: nat, bin: nat, i: nat, k: nat)
    requires bin > 0
    requires Start(n, bin) <= i < Start(n, bin) + n - Drop(n, bin)
    ensures var b := (i - Start(n, bin)) / bin;
      && b < n / bin
      && BinBegin(Start(n, bin), bin, b) <= i < BinEnd(Start(n, bin), bin, b)
      && (BinBegin(Start(n, bin), bin, k) <= i < BinEnd(Start(n, bin), bin, k) ==> k == b)
  {
    var start := Start(n, bin);
    var j := i - start;
    var b := j / bin;
    DropSplit(n, bin);
    assert j < bin * (n / bin);
    Arith.DivBelow(j, bin, n / bin);
    assert j == bin * b + j % bin;
    BinsAdjacent(start, bin, b);
    if BinBegin(start, bin, k) <= i < BinEnd(start, bin, k) {
      BinsAdjacent(start, bin, k);
      var d := j - bin * k;
      assert 0 <= d < bin;
      assert d + bin * k == j;
      Arith.DivMix(d, bin, k);
    }
  }

  /** A pixel outside `[start, start + n - drop)` lies in no bin. */
  lemma DroppedPixel(n: nat, bin: nat, i: nat, k: nat)
    requires bin > 0 && k < n / bin
    requires i < Start(n, bin) || Start(n, bin) + n - Drop(n, bin) <= i
    ensures !(BinBegin(Start(n, bin), bin, k) <= i < BinEnd(Start(n, bin), bin, k))
  {
    DropSplit(n, bin);
    BinsAdjacent(Start(n, bin), bin, k);
    Arith.MulLe(bin, k + 1, n / bin);
  }

  /** `np.arange(start - 0.5 + bin/2, n - drop + start - 0.5, bin)`: the k-th position. */
  function Position(n: nat, bin: nat, k: nat): real
    requires bin > 0
  {
    Start(n, bin) as real - 0.5 + bin as real / 2.0 + (bin * k) as real
  }

  /** The end of that range (exclusive). */
  function PositionStop(n: nat, bin: nat): real
    requires bin > 0
  {
    (n - Drop(n, bin) + Start(n, bin)) as real - 0.5
  }

  /** The range holds exactly `n div bin` positions, one per bin. */
  lemma PositionCount(n: nat, bin: nat, k: nat)
    requires bin > 0
    ensures Position(n, bin, k) < PositionStop(n, bin) <==> k < n / bin
  {
    var m := n / bin;
    DropSplit(n, bin);
    assert n - Drop(n, bin) == bin * m;
    if k < m {
      Arith.MulLe(bin, k + 1, m);
      assert bin * (k + 1) == bin * k + bin;
    } else {
      Arith.MulLe(bin, m, k);
    }
  }

  /** Position `k` is the centre of bin `k`, pixel `i` spanning `[i - 0.5, i + 0.5)`. */
  lemma PositionCentre(n: nat, bin: nat, k: nat)
    requires bin > 0
    ensures Position(n, bin, k)
         == (BinBegin(Start(n, bin), bin, k) + BinEnd(Start(n, bin), bin, k)) as real / 2.0 - 0.5
  {
    BinsAdjacent(Start(n, bin), bin, k);
  }

  // ---------- wavelength selection ----------------------------------------------------------

  /** The `wavelength` argument: None, 'all', one wavelength or a list of them. */
  datatype WavelengthChoice = FirstFrame | AllFrames | OneWavelength(w: real) | Wavelengths(ws: seq<real>)

  /** The frame indices to plot: the first frame, every frame of the cube, or the instrument's
      indices (`wavelengthIndices`, a parameter) for the listed wavelengths. */
  function WavelengthIndices(choice: WavelengthChoice, frames: nat, lookup: seq<real> -> seq<nat>): (r: seq<nat>)
    ensures choice.FirstFrame? ==> r == [0]
    ensures choice.AllFrames? ==> |r| == frames && forall i :: 0 <= i < frames ==> r[i] == i
    ensures choice.OneWavelength? ==> r == lookup([choice.w])
    ensures choice.Wavelengths? ==> r == lookup(choice.ws)
  {
    match choice
    case FirstFrame => [0]
    case AllFrames => seq(frames, i requires 0 <= i < frames => i)
    case OneWavelength(w) => lookup([w])
    case Wavelengths(ws) => lookup(ws)
  }

  // ---------- binning ------------------------------------------------------------------------

  /** A frame of pixel values (the `.T.value` of one wavelength slice): rows y, columns x. */
  type Frame = seq<seq<real>>

  predicate Rectangular(a: Frame, cols: nat) {
    forall r :: 0 <= r < |a| ==> |a[r]| == cols
  }

  /** The sum of a row over the columns `[c0, c1)`. */
  function RowSum(row: seq<real>, c0: nat, c1: nat): real
    requires c0 <= c1 <= |row|
    decreases c1 - c0
  {
    if c0 == c1 then 0.0 else RowSum(row, c0, c1 - 1) + row[c1 - 1]
  }

  /** `np.sum(a[r0:r1, c0:c1])`. */
  function BlockSum(a: Frame, cols: nat, r0: nat, r1: nat, c0: nat, c1: nat): real
    requires Rectangular(a, cols) && r0 <= r1 <= |a| && c0 <= c1 <= cols
    decreases r1 - r0
  {
    if r0 == r1 then 0.0 else BlockSum(a, cols, r0, r1 - 1, c0, c1) + RowSum(a[r1 - 1], c0, c1)
  }

  /** A row sum over two adjacent column ranges adds up. */
  lemma {:induction false} RowSumSplit(row: seq<real>, c0: nat, c1: nat, c2: nat)
    requires c0 <= c1 <= c2 <= |row|
    ensures RowSum(row, c0, c2) == RowSum(row, c0, c1) + RowSum(row, c1, c2)
    decreases c2 - c1
  {
    if c1 < c2 {
      RowSumSplit(row, c0, c1, c2 - 1);
    }
  }

  /** A block sum over two adjacent row ranges adds up. */
  lemma {:induction false} BlockSumRows(a: Frame, cols: nat, r0: nat, r1: nat, r2: nat, c0: nat, c1: nat)
    requires Rectangular(a, cols) && r0 <= r1 <= r2 <= |a| && c0 <= c1 <= cols
    ensures BlockSum(a, cols, r0, r2, c0, c1) == BlockSum(a, cols, r0, r1, c0, c1) + BlockSum(a, cols, r1, r2, c0, c1)
    decreases r2 - r1
  {
    if r1 < r2 {
      BlockSumRows(a, cols, r0, r1, r2 - 1, c0, c1);
    }
  }

  /** A block sum over two adjacent column ranges adds up. */
  lemma {:induction false} BlockSumColumns(a: Frame, cols: nat, r0: nat, r1: nat, c0: nat, c1: nat, c2: nat)
    requires Rectangular(a, cols) && r0 <= r1 <= |a| && c0 <= c1 <= c2 <= cols
    ensures BlockSum(a, cols, r0, r1, c0, c2) == BlockSum(a, cols, r0, r1, c0, c1) + BlockSum(a, cols, r0, r1, c1, c2)
    decreases r1 - r0
  {
    if r0 < r1 {
      BlockSumColumns(a, cols, r0, r1 - 1, c0, c1, c2);
      RowSumSplit(a[r1 - 1], c0, c1, c2);
    }
  }

  /** The sum of the pixels of bin (y, x). */
  function BinSum(a: Frame, cols: nat, binX: nat, binY: nat, y: nat, x: nat): real
    requires Rectangular(a, cols) && binX > 0 && binY > 0 && y < |a| / binY && x < cols / binX
  {
    var sy, sx := Start(|a|, binY), Start(cols, binX);
    BinInside(|a|, binY, y);
    BinInside(cols, binX, x);
    BlockSum(a, cols, BinBegin(sy, binY, y), BinEnd(sy, binY, y), BinBegin(sx, binX, x), BinEnd(sx, binX, x))
  }

  /** Two horizontally adjacent bins together sum the block they cover. */
  lemma AdjacentBins(a: Frame, cols: nat, binX: nat, binY: nat, y: nat, x: nat)
    requires Rectangular(a, cols) && binX > 0 && binY > 0 && y < |a| / binY && x + 1 < cols / binX
    ensures (BinInside(|a|, binY, y); BinInside(cols, binX, x + 1); BinsAdjacent(Start(cols, binX), binX, x);
      var sy, sx := Start(|a|, binY), Start(cols, binX);
      BinSum(a, cols, binX, binY, y, x) + BinSum(a, cols, binX, binY, y, x + 1)
        == BlockSum(a, cols, BinBegin(sy, binY, y), BinEnd(sy, binY, y), BinBegin(sx, binX, x), BinEnd(sx, binX, x + 1)))
  {
    var sy, sx := Start(|a|, binY), Start(cols, binX);
    BinInside(|a|, binY, y);
    BinInside(cols, binX, x + 1);
    BinsAdjacent(sx, binX, x);
    BinsAdjacent(sx, binX, x + 1);
    BlockSumColumns(a, cols, BinBegin(sy, binY, y), BinEnd(sy, binY, y), BinBegin(sx, binX, x), BinEnd(sx, binX, x), BinEnd(sx, binX, x + 1));
  }

  /** The binned arrays: `ny` rows and `nx` columns each. */
  predicate Shape(b: array2<real>, ny: nat, nx: nat) {
    b.Length0 == ny && b.Length1 == nx
  }

  /** The body of the binning loops: entry (y, x) of the four binned arrays gets the bin sums of
      I, Q, U and V, and the V entry is then divided by the I entry; no other entry changes. */
  method BinCell(bI: array2<real>, bQ: array2<real>, bU: array2<real>, bV: array2<real>,
                 I: Frame, Q: Frame, U: Frame, V: Frame, cols: nat, binX: nat, binY: nat,
                 divide: (real, real) -> real, y: nat, x: nat)
    requires binX > 0 && binY > 0
    requires Rectangular(I, cols) && Rectangular(Q, cols) && Rectangular(U, cols) && Rectangular(V, cols)
    requires |Q| == |U| == |V| == |I|
    requires y < |I| / binY && x < cols / binX
    requires y < bI.Length0 && y < bQ.Length0 && y < bU.Length0 && y < bV.Length0
    requires x < bI.Length1 && x < bQ.Length1 && x < bU.Length1 && x < bV.Length1
    requires bI != bQ && bI != bU && bI != bV && bQ != bU && bQ != bV && bU != bV
    modifies bI, bQ, bU, bV
    ensures bI[y, x] == BinSum(I, cols, binX, binY, y, x)
    ensures bQ[y, x] == BinSum(Q, cols, binX, binY, y, x)
    ensures bU[y, x] == BinSum(U, cols, binX, binY, y, x)
    ensures bV[y, x] == divide(BinSum(V, cols, binX, binY, y, x), BinSum(I, cols, binX, binY, y, x))
    ensures forall i, j :: 0 <= i < bI.Length0 && 0 <= j < bI.Length1 && (i != y || j != x) ==> bI[i, j] == old(bI[i, j])
    ensures forall i, j :: 0 <= i < bQ.Length0 && 0 <= j < bQ.Length1 && (i != y || j != x) ==> bQ[i, j] == old(bQ[i, j])
    ensures forall i, j :: 0 <= i < bU.Length0 && 0 <= j < bU.Length1 && (i != y || j != x) ==> bU[i, j] == old(bU[i, j])
    ensures forall i, j :: 0 <= i < bV.Length0 && 0 <= j < bV.Length1 && (i != y || j != x) ==> bV[i, j] == old(bV[i, j])
  {
    bI[y, x] := BinSum(I, cols, binX, binY, y, x);
    bQ[y, x] := BinSum(Q, cols, binX, binY, y, x);
    bU[y, x] := BinSum(U, cols, binX, binY, y, x);
    bV[y, x] := BinSum(V, cols, binX, binY, y, x);
    bV[y, x] := divide(bV[y, x], bI[y, x]);
  }

  /** The nested binning loops over the four Stokes frames (rows y, columns x), filling four
      zero-initialised arrays with one entry per bin, (#posY, #posX): entry (y, x) of the first three
      is the bin sum of I, Q and U, and that of the fourth is the bin sum of V divided by that of I.
      The division of floating-point sums is `divide`. */
  method BinFrames(I: Frame, Q: Frame, U: Frame, V: Frame, cols: nat,
                   binX: nat, binY: nat, divide: (real, real) -> real)
    returns (bI: array2<real>, bQ: array2<real>, bU: array2<real>, bV: array2<real>)
    requires binX > 0 && binY > 0
    requires Rectangular(I, cols) && Rectangular(Q, cols) && Rectangular(U, cols) && Rectangular(V, cols)
    requires |Q| == |U| == |V| == |I|
    ensures fresh(bI) && fresh(bQ) && fresh(bU) && fresh(bV)
    ensures var ny, nx := |I| / binY, cols / binX;
      Shape(bI, ny, nx) && Shape(bQ, ny, nx) && Shape(bU, ny, nx) && Shape(bV, ny, nx)
    ensures forall y, x :: 0 <= y < |I| / binY && 0 <= x < cols / binX ==>
      && bI[y, x] == BinSum(I, cols, binX, binY, y, x)
      && bQ[y, x] == BinSum(Q, cols, binX, binY, y, x)
      && bU[y, x] == BinSum(U, cols, binX, binY, y, x)
      && bV[y, x] == divide(BinSum(V, cols, binX, binY, y, x), BinSum(I, cols, binX, binY, y, x))
  {
    var ny, nx := |I| / binY, cols / binX;
    bI := new real[ny, nx]((_, _) => 0.0);
    bQ := new real[ny, nx]((_, _) => 0.0);
    bU := new real[ny, nx]((_, _) => 0.0);
    bV := new real[ny, nx]((_, _) => 0.0);
    for x := 0 to nx
      invariant forall y', x' :: 0 <= y' < ny && 0 <= x' < x ==> bI[y', x'] == BinSum(I, cols, binX, binY, y', x')
      invariant forall y', x' :: 0 <= y' < ny && 0 <= x' < x ==> bQ[y', x'] == BinSum(Q, cols, binX, binY, y', x')
      invariant forall y', x' :: 0 <= y' < ny && 0 <= x' < x ==> bU[y', x'] == BinSum(U, cols, binX, binY, y', x')
      invariant forall y', x' :: 0 <= y' < ny && 0 <= x' < x ==>
        bV[y', x'] == divide(BinSum(V, cols, binX, binY, y', x'), BinSum(I, cols, binX, binY, y', x'))
    {
      for y := 0 to ny
        invariant forall y', x' :: 0 <= y' < ny && 0 <= x' <= x && (x' < x || y' < y) ==>
          bI[y', x'] == BinSum(I, cols, binX, binY, y', x')
        invariant forall y', x' :: 0 <= y' < ny && 0 <= x' <= x && (x' < x || y' < y) ==>
          bQ[y', x'] == BinSum(Q, cols, binX, binY, y', x')
        invariant forall y', x' :: 0 <= y' < ny && 0 <= x' <= x && (x' < x || y' < y) ==>
          bU[y', x'] == BinSum(U, cols, binX, binY, y', x')
        invariant forall y', x' :: 0 <= y' < ny && 0 <= x' <= x && (x' < x || y' < y) ==>
          bV[y', x'] == divide(BinSum(V, cols, binX, binY, y', x'), BinSum(I, cols, binX, binY, y', x'))
      {
        BinCell(bI, bQ, bU, bV, I, Q, U, V, cols, binX, binY, divide, y, x);
      }
    }
  }
}
