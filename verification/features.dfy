/** Feature extraction of the offline heuristic engine: channel averages,
    luminance statistics, the Laplacian edge response over the interior of the
    image, its aggregation into a 16 x 16 grid of 8-pixel cells, and the
    "biomorphic index" (spread of the cell sums relative to their mean). */
module Features {
  import opened Numeric
  import opened Pixels

  /** Interior coordinates run over 1 .. Side - 2. */
  const Interior: nat := Side - 2
  const InteriorCount: nat := Interior * Interior
  const CellSide: nat := 8
  const GridSide: nat := 16
  const CellCount: nat := GridSide * GridSide

  /** The discrete Laplacian magnitude at interior pixel (x, y): four times the
      centre minus the sum of the up, down, left and right neighbours. */
  function EdgeAt(gs: seq<real>, x: nat, y: nat): (e: real)
    requires |gs| == PixelCount
    requires 1 <= x <= Interior && 1 <= y <= Interior
    ensures 0.0 <= e
  {
    var up := gs[Index(x, y - 1)];
    var down := gs[Index(x, y + 1)];
    var left := gs[Index(x - 1, y)];
    var right := gs[Index(x + 1, y)];
    Abs(4.0 * gs[Index(x, y)] - (((up + down) + left) + right))
  }

  /** The grid cell an interior pixel is accumulated into. */
  function CellOf(x: nat, y: nat): (c: nat)
    requires 1 <= x <= Interior && 1 <= y <= Interior
    ensures c < CellCount
  {
    (y / 8) * 16 + x / 8
  }

  /** Sum of the edge responses of the first `n` pixels of row `y` (columns
      1 .. n). */
  function RowSum(gs: seq<real>, y: nat, n: nat): (t: real)
    requires |gs| == PixelCount
    requires 1 <= y <= Interior && n <= Interior
    ensures 0.0 <= t
    decreases n
  {
    if n == 0 then 0.0 else RowSum(gs, y, n - 1) + EdgeAt(gs, n, y)
  }

  /** Sum of the edge responses of the first `rows` interior rows. */
  function EdgeSumUpTo(gs: seq<real>, rows: nat): (t: real)
    requires |gs| == PixelCount
    requires rows <= Interior
    ensures 0.0 <= t
    decreases rows
  {
    if rows == 0 then 0.0 else EdgeSumUpTo(gs, rows - 1) + RowSum(gs, rows, Interior)
  }

  /** `edgeSum`: the edge responses of every interior pixel, added up. */
  function EdgeSum(gs: seq<real>): (t: real)
    requires |gs| == PixelCount
    ensures 0.0 <= t
  {
    EdgeSumUpTo(gs, Interior)
  }

  function Zeros(n: nat): (z: seq<real>)
    ensures |z| == n
    ensures forall i :: 0 <= i < n ==> z[i] == 0.0
  {
    seq(n, _ => 0.0)
  }

  /** `grid` after the first `n` pixels of row `y` have been added to their
      cells. */
  function GridRow(gs: seq<real>, y: nat, n: nat, grid: seq<real>): (g: seq<real>)
    requires |gs| == PixelCount
    requires 1 <= y <= Interior && n <= Interior
    requires |grid| == CellCount
    ensures |g| == CellCount
    decreases n
  {
    if n == 0 then grid
    else
      var prev := GridRow(gs, y, n - 1, grid);
      var c := CellOf(n, y);
      prev[c := prev[c] + EdgeAt(gs, n, y)]
  }

  /** The cell grid after the first `rows` interior rows, starting from zeros. */
  function GridUpTo(gs: seq<real>, rows: nat): (g: seq<real>)
    requires |gs| == PixelCount
    requires rows <= Interior
    ensures |g| == CellCount
    decreases rows
  {
    if rows == 0 then Zeros(CellCount) else GridRow(gs, rows, Interior, GridUpTo(gs, rows - 1))
  }

  function GridEdges(gs: seq<real>): (grid: seq<real>)
    requires |gs| == PixelCount
    ensures |grid| == CellCount
    ensures forall c :: 0 <= c < CellCount ==> 0.0 <= grid[c]
  {
    GridUpToNonNegative(gs, Interior);
    GridUpTo(gs, Interior)
  }

  /** Cells only ever grow by non-negative edge responses. */
  lemma {:induction false} GridRowNonNegative(gs: seq<real>, y: nat, n: nat, grid: seq<real>)
    requires |gs| == PixelCount
    requires 1 <= y <= Interior && n <= Interior
    requires |grid| == CellCount
    requires forall c :: 0 <= c < CellCount ==> 0.0 <= grid[c]
    ensures forall c :: 0 <= c < CellCount ==> 0.0 <= GridRow(gs, y, n, grid)[c]
    decreases n
  {
    if n > 0 {
      GridRowNonNegative(gs, y, n - 1, grid);
    }
  }

  lemma {:induction false} GridUpToNonNegative(gs: seq<real>, rows: nat)
    requires |gs| == PixelCount
    requires rows <= Interior
    ensures forall c :: 0 <= c < CellCount ==> 0.0 <= GridUpTo(gs, rows)[c]
    decreases rows
  {
    if rows > 0 {
      GridUpToNonNegative(gs, rows - 1);
      GridRowNonNegative(gs, rows, Interior, GridUpTo(gs, rows - 1));
    }
  }

  /** Adding the first `n` pixels of a row to the grid adds exactly their edge
      responses to its total. */
  lemma {:induction false} GridRowSum(gs: seq<real>, y: nat, n: nat, grid: seq<real>)
    requires |gs| == PixelCount
    requires 1 <= y <= Interior && n <= Interior
    requires |grid| == CellCount
    ensures Sum(GridRow(gs, y, n, grid)) == Sum(grid) + RowSum(gs, y, n)
    decreases n
  {
    if n > 0 {
      GridRowSum(gs, y, n - 1, grid);
      SumUpdate(GridRow(gs, y, n - 1, grid), CellOf(n, y), EdgeAt(gs, n, y));
    }
  }

  /** Accumulating into cells loses nothing: after `rows` rows the cells sum to
      the edge sum of those rows. */
  lemma {:induction false} GridUpToSum(gs: seq<real>, rows: nat)
    requires |gs| == PixelCount
    requires rows <= Interior
    ensures Sum(GridUpTo(gs, rows)) == EdgeSumUpTo(gs, rows)
    decreases rows
  {
    if rows == 0 {
      SumConstant(Zeros(CellCount), 0.0);
    } else {
      GridUpToSum(gs, rows - 1);
      GridRowSum(gs, rows, Interior, GridUpTo(gs, rows - 1));
    }
  }

  /** The sum of `gridEdges` equals `edgeSum`. */
  lemma GridSumIsEdgeSum(gs: seq<real>)
    requires |gs| == PixelCount
    ensures Sum(GridEdges(gs)) == EdgeSum(gs)
  {
    GridUpToSum(gs, Interior);
  }

  /** The features the engine computes from the pixel grid: everything the
      matcher and the label decisions read. */
  datatype FeatureVector = FeatureVector(
    avgR: real, avgG: real, avgB: real,
    avgGray: real,
    variance: real,
    textureScore: real,
    normalizedEdge: real,
    gridMean: real,
    gridVariance: real,
    biomorphicIndex: Number)

  /** `edgeSum / (count * 255)`: the denominator is the full pixel count, not
      the number of interior pixels that contribute edges. */
  function NormalizedEdge(gs: seq<real>): (ne: real)
    requires |gs| == PixelCount
    ensures 0.0 <= ne
    ensures ne * (PixelCount as real * 255.0) == EdgeSum(gs)
  {
    EdgeSum(gs) / (PixelCount as real * 255.0)
  }

  /** The biomorphic index `sqrt(gridVariance) / gridMean`, with no guard
      against a zero mean: a grid without any edge gives 0 / 0, which is NaN. */
  function BiomorphicIndex(grid: seq<real>, sqrt: real -> real): (bi: Number)
    requires IsSqrt(sqrt)
    requires |grid| > 0
    requires forall c :: 0 <= c < |grid| ==> 0.0 <= grid[c]
    ensures bi == NaN <==> Mean(grid) == 0.0
    ensures bi.Finite? <==> Mean(grid) != 0.0
  {
    assert Mean(grid) == 0.0 ==> sqrt(Variance(grid)) == 0.0 by {
      if Mean(grid) == 0.0 {
        VarianceOfZeroMean(grid);
        SqrtOfSquare(sqrt, 0.0);
      }
    }
    Divide(sqrt(Variance(grid)), Mean(grid))
  }

  /** The texture score: the population standard deviation of luminance. */
  function TextureScore(gs: seq<real>, sqrt: real -> real): (t: real)
    requires IsSqrt(sqrt)
    requires |gs| > 0
    ensures IsRootOf(t, Variance(gs))
  {
    sqrt(Variance(gs))
  }

  /** Average of a byte-valued buffer: `total / count`, within [0, 255]. */
  function ByteMean(s: seq<real>): (m: real)
    requires |s| == PixelCount
    requires forall i :: 0 <= i < |s| ==> 0.0 <= s[i] <= 255.0
    ensures 0.0 <= m <= 255.0
  {
    MeanBounds(s, 0.0, 255.0);
    Mean(s)
  }

  /** Features of an image; `sqrt` stands for `Math.sqrt`. */
  function Extract(img: Image, sqrt: real -> real): (f: FeatureVector)
    requires IsSqrt(sqrt)
    ensures 0.0 <= f.avgR <= 255.0 && 0.0 <= f.avgG <= 255.0 && 0.0 <= f.avgB <= 255.0
    ensures 0.0 <= f.avgGray <= 255.0
    ensures IsRootOf(f.textureScore, f.variance)
    ensures 0.0 <= f.normalizedEdge
    ensures f.biomorphicIndex == NaN <==> f.gridMean == 0.0
    ensures f.biomorphicIndex.Finite? <==> f.gridMean != 0.0
  {
    var gs := Grays(img);
    var grid := GridEdges(gs);
    FeatureVector(
      ByteMean(Channel(img, RedOf)), ByteMean(Channel(img, GreenOf)), ByteMean(Channel(img, BlueOf)),
      ByteMean(gs), Variance(gs), TextureScore(gs, sqrt),
      NormalizedEdge(gs),
      Mean(grid), Variance(grid), BiomorphicIndex(grid, sqrt))
  }

  predicate Constant(gs: seq<real>)
  {
    forall i :: 0 <= i < |gs| ==> gs[i] == gs[0]
  }

  lemma {:induction false} ConstantRowSum(gs: seq<real>, y: nat, n: nat)
    requires |gs| == PixelCount && Constant(gs)
    requires 1 <= y <= Interior && n <= Interior
    ensures RowSum(gs, y, n) == 0.0
    ensures GridRow(gs, y, n, Zeros(CellCount)) == Zeros(CellCount)
    decreases n
  {
    if n > 0 {
      ConstantRowSum(gs, y, n - 1);
      assert EdgeAt(gs, n, y) == 0.0;
      var z := Zeros(CellCount);
      var c := CellOf(n, y);
      assert z[c := z[c] + 0.0] == z;
    }
  }

  lemma {:induction false} ConstantEdgeSumUpTo(gs: seq<real>, rows: nat)
    requires |gs| == PixelCount && Constant(gs)
    requires rows <= Interior
    ensures EdgeSumUpTo(gs, rows) == 0.0
    ensures GridUpTo(gs, rows) == Zeros(CellCount)
    decreases rows
  {
    if rows > 0 {
      ConstantEdgeSumUpTo(gs, rows - 1);
      ConstantRowSum(gs, rows, Interior);
    }
  }

  /** A uniform image has no texture and no edges: variance, texture score and
      edge density are zero, the grid mean is zero, so the biomorphic index is
      NaN; the averages are the colour of its pixels. */
  lemma UniformFeatures(img: Image, sqrt: real -> real)
    requires IsSqrt(sqrt)
    requires Uniform(img)
    ensures Extract(img, sqrt).avgR == img[0].r as real
    ensures Extract(img, sqrt).avgG == img[0].g as real
    ensures Extract(img, sqrt).avgB == img[0].b as real
    ensures Extract(img, sqrt).avgGray == Luminance(img[0])
    ensures Extract(img, sqrt).variance == 0.0 && Extract(img, sqrt).textureScore == 0.0
    ensures Extract(img, sqrt).normalizedEdge == 0.0
    ensures Extract(img, sqrt).biomorphicIndex == NaN
  {
    UniformChannels(img);
    UniformGrays(img);
    RootOfZero(TextureScore(Grays(img), sqrt));
  }

  lemma UniformChannels(img: Image)
    requires Uniform(img)
    ensures ByteMean(Channel(img, RedOf)) == img[0].r as real
    ensures ByteMean(Channel(img, GreenOf)) == img[0].g as real
    ensures ByteMean(Channel(img, BlueOf)) == img[0].b as real
  {
    MeanOfConstant(Channel(img, RedOf), img[0].r as real);
    MeanOfConstant(Channel(img, GreenOf), img[0].g as real);
    MeanOfConstant(Channel(img, BlueOf), img[0].b as real);
  }

  lemma UniformGrays(img: Image)
    requires Uniform(img)
    ensures ByteMean(Grays(img)) == Luminance(img[0])
    ensures Variance(Grays(img)) == 0.0
    ensures NormalizedEdge(Grays(img)) == 0.0
    ensures Mean(GridEdges(Grays(img))) == 0.0
  {
    var gs := Grays(img);
    assert Constant(gs);
    MeanOfConstant(gs, Luminance(img[0]));
    VarianceOfConstant(gs, Luminance(img[0]));
    ConstantEdgeSumUpTo(gs, Interior);
    MeanOfConstant(Zeros(CellCount), 0.0);
  }

  /** Running total of one channel over the first `n` pixels. */
  function Total(img: Image, c: Pixel -> Byte, n: nat): real
    requires n <= PixelCount
    decreases n
  {
    if n == 0 then 0.0 else Total(img, c, n - 1) + c(img[n - 1]) as real
  }

  lemma {:induction false} TotalIsSum(img: Image, c: Pixel -> Byte, n: nat)
    requires n <= PixelCount
    ensures Total(img, c, n) == Sum(Channel(img, c)[..n])
    decreases n
  {
    if n > 0 {
      TotalIsSum(img, c, n - 1);
      SumPrefixStep(Channel(img, c), n - 1);
    }
  }

  /** The pixel loop: channel totals and the luminance buffer. */
  method AccumulatePixels(img: Image) returns (rTotal: real, gTotal: real, bTotal: real, grays: seq<real>)
    ensures rTotal == Sum(Channel(img, RedOf))
    ensures gTotal == Sum(Channel(img, GreenOf))
    ensures bTotal == Sum(Channel(img, BlueOf))
    ensures grays == Grays(img)
  {
    rTotal, gTotal, bTotal := 0.0, 0.0, 0.0;
    grays := [];
    var i := 0;
    while i < |img|
      invariant 0 <= i <= |img|
      invariant rTotal == Total(img, RedOf, i)
      invariant gTotal == Total(img, GreenOf, i)
      invariant bTotal == Total(img, BlueOf, i)
      invariant grays == Grays(img)[..i]
    {
      var p := img[i];
      rTotal := rTotal + p.r as real;
      gTotal := gTotal + p.g as real;
      bTotal := bTotal + p.b as real;
      grays := grays + [0.299 * p.r as real + 0.587 * p.g as real + 0.114 * p.b as real];
      assert grays == Grays(img)[..i + 1];
      i := i + 1;
    }
    TotalIsSum(img, RedOf, PixelCount);
    TotalIsSum(img, GreenOf, PixelCount);
    TotalIsSum(img, BlueOf, PixelCount);
    assert Channel(img, RedOf)[..PixelCount] == Channel(img, RedOf);
    assert Channel(img, GreenOf)[..PixelCount] == Channel(img, GreenOf);
    assert Channel(img, BlueOf)[..PixelCount] == Channel(img, BlueOf);
    assert Grays(img)[..PixelCount] == Grays(img);
  }

  /** One row of the interior loop: columns 1 .. 126 of row `y`, adding every
      Laplacian response to the running edge sum and to its cell. */
  method ScanRow(gs: seq<real>, y: nat, edgeSum0: real, gridEdges0: seq<real>) returns (edgeSum: real, gridEdges: seq<real>)
    requires |gs| == PixelCount
    requires 1 <= y <= Interior
    requires |gridEdges0| == CellCount
    ensures edgeSum == edgeSum0 + RowSum(gs, y, Interior)
    ensures gridEdges == GridRow(gs, y, Interior, gridEdges0)
  {
    edgeSum, gridEdges := edgeSum0, gridEdges0;
    var x := 1;
    while x < Side - 1
      invariant 1 <= x <= Side - 1
      invariant edgeSum == edgeSum0 + RowSum(gs, y, x - 1)
      invariant gridEdges == GridRow(gs, y, x - 1, gridEdges0)
    {
      var edgeVal := EdgeAt(gs, x, y);
      edgeSum := edgeSum + edgeVal;
      var cell := CellOf(x, y);
      gridEdges := gridEdges[cell := gridEdges[cell] + edgeVal];
      x := x + 1;
    }
  }

  /** The interior loop: rows 1 .. 126, each scanned by `ScanRow`. */
  method ScanInterior(gs: seq<real>) returns (edgeSum: real, gridEdges: seq<real>)
    requires |gs| == PixelCount
    ensures edgeSum == EdgeSum(gs)
    ensures gridEdges == GridEdges(gs)
    ensures Sum(gridEdges) == edgeSum
  {
    edgeSum := 0.0;
    gridEdges := Zeros(CellCount);
    var y := 1;
    while y < Side - 1
      invariant 1 <= y <= Side - 1
      invariant edgeSum == EdgeSumUpTo(gs, y - 1)
      invariant gridEdges == GridUpTo(gs, y - 1)
    {
      edgeSum, gridEdges := ScanRow(gs, y, edgeSum, gridEdges);
      y := y + 1;
    }
    GridSumIsEdgeSum(gs);
  }
}
