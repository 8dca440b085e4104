/**
 * SampledFunction: a histogram over [offset, offset + size * binWidth) whose
 * edge bins are open-ended.  The pure index and edge arithmetic of the header
 * lives on `Grid`; the class holds the mutable weight vector.
 */
module SampledFunctions {
  import opened Sums

  /** The stand-in for an unbounded edge. */
  const BIG: real := 1000000.0

  /** The C++ conversion of a double to int, which truncates toward zero. */
  function Truncate(q: real): (r: int)
    ensures q >= 0.0 ==> r == q.Floor
    ensures q < 0.0 ==> r <= 0
  {
    if q >= 0.0 then q.Floor else -((-q).Floor)
  }

  lemma {:induction false} QuotientScales(d: real, w: real, q: real)
    requires w > 0.0 && q == d / w
    ensures q * w == d
  {
  }

  /** For d >= 0, the floor r of d / w brackets d: r*w <= d < (r+1)*w. */
  lemma {:induction false} FloorBrackets(d: real, w: real, q: real, r: int)
    requires w > 0.0 && q * w == d && q >= 0.0 && r == q.Floor
    ensures r as real * w <= d < (r + 1) as real * w
  {
    assert r as real <= q < r as real + 1.0;
    assert (r + 1) as real == r as real + 1.0;
    MultiplyLess(r as real, q, w);
    MultiplyStrict(q, (r + 1) as real, w);
    assert q * w < (r + 1) as real * w;
    assert d < (r + 1) as real * w;
  }

  /** A positive factor keeps the sign of the other. */
  lemma {:induction false} ProductSign(a: real, w: real)
    requires w > 0.0
    ensures a < 0.0 <==> a * w < 0.0
  {
  }

  /** Where x lies against o and o + s*w decides where q = (x - o) / w lies against 0 and s. */
  lemma {:induction false} QuotientBounds(x: real, o: real, w: real, s: real, q: real)
    requires w > 0.0 && q * w == x - o
    ensures x < o ==> q < 0.0
    ensures o <= x ==> q >= 0.0
    ensures o + s * w <= x ==> s <= q
    ensures x < o + s * w ==> q < s
  {
    ProductSign(q, w);
    if o + s * w <= x {
      LessEqByScaling(s, q, w);
    } else {
      LessByScaling(q, s, w);
    }
  }

  /** A cell [o + lo*w, o + hi*w) of a grid of s cells lies inside the grid. */
  lemma {:induction false} InsideGrid(o: real, w: real, x: real, lo: real, hi: real, s: real)
    requires w > 0.0 && 0.0 <= lo && hi <= s && o + lo * w <= x < o + hi * w
    ensures o <= x < o + s * w
  {
    ProductSign(lo, w);
    MultiplyLess(hi, s, w);
  }

  /** Two cells of width w holding the same x overlap: each starts before the other ends. */
  lemma {:induction false} SameCell(o: real, w: real, x: real, a: real, a1: real, b: real, b1: real)
    requires w > 0.0 && o + a * w <= x < o + a1 * w && o + b * w <= x < o + b1 * w
    ensures a < b1 && b < a1
  {
    LessThrough(a, b1, w, x - o);
    LessThrough(b, a1, w, x - o);
  }

  lemma {:induction false} MultiplyLess(a: real, b: real, w: real)
    requires w > 0.0 && a <= b
    ensures a * w <= b * w
  {
  }

  lemma {:induction false} MultiplyStrict(a: real, b: real, w: real)
    requires w > 0.0 && a < b
    ensures a * w < b * w
  {
  }

  /** The discretisation: lower bound, bin width and number of bins. */
  datatype Grid = Grid(offset: real, binWidth: real, size: nat)
  {
    predicate Valid()
    {
      binWidth > 0.0 && size >= 1
    }

    /** The whole grid lies strictly inside (-BIG, BIG]. */
    predicate WithinBig()
    {
      -BIG < offset && offset + size as real * binWidth <= BIG
    }

    /** to_bin: the bin holding x, clamped to the first and the last bin. */
    function ToBin(x: real): (b: nat)
      requires Valid()
      ensures b < size
      ensures x < offset ==> b == 0
      ensures offset + size as real * binWidth <= x ==> b == size - 1
      ensures offset <= x < offset + size as real * binWidth ==>
                offset + b as real * binWidth <= x < offset + (b + 1) as real * binWidth
    {
      var q := (x - offset) / binWidth;
      var r := Truncate(q);
      QuotientScales(x - offset, binWidth, q);
      BinBounds(x, q, r);
      if r < 0 then 0 else if r >= size then size - 1 else r
    }

    lemma {:induction false} BinBounds(x: real, q: real, r: int)
      requires Valid() && q * binWidth == x - offset && r == Truncate(q)
      ensures x < offset ==> r <= 0
      ensures offset + size as real * binWidth <= x ==> r >= size
      ensures offset <= x ==> offset + r as real * binWidth <= x < offset + (r + 1) as real * binWidth
      ensures x < offset + size as real * binWidth ==> r < size
    {
      QuotientBounds(x, offset, binWidth, size as real, q);
      if x >= offset {
        FloorBrackets(x - offset, binWidth, q, r);
      }
    }

    /** from_bin_floor: the lower edge of a bin; the first bin is open below. */
    function FromBinFloor(bin: nat): real
    {
      if bin <= 0 then -BIG else bin as real * binWidth + offset
    }

    /** from_bin_ceil: the upper edge of a bin; the last bin is open above. */
    function FromBinCeil(bin: nat): real
    {
      if bin >= size - 1 then BIG else (bin + 1) as real * binWidth + offset
    }

    /** from_bin_mid: the value a bin stands for; the first bin stands for the offset itself. */
    function FromBinMid(bin: nat): real
    {
      if bin == 0 then offset else (bin as real + 0.5) * binWidth + offset
    }

    function SampleFloor(x: real): real
      requires Valid()
    {
      FromBinFloor(ToBin(x))
    }

    function SampleCeil(x: real): real
      requires Valid()
    {
      FromBinCeil(ToBin(x))
    }
  }

  /** Inside the grid, ToBin(x) is the unique i with offset + i*w <= x < offset + (i+1)*w. */
  lemma {:induction false} ToBinExact(g: Grid, x: real, i: nat)
    requires g.Valid() && i < g.size
    requires g.offset + i as real * g.binWidth <= x < g.offset + (i + 1) as real * g.binWidth
    ensures g.ToBin(x) == i
  {
    InsideGrid(g.offset, g.binWidth, x, i as real, (i + 1) as real, g.size as real);
    var b := g.ToBin(x);
    SameCell(g.offset, g.binWidth, x, i as real, (i + 1) as real, b as real, (b + 1) as real);
  }

  /** A value between a*w and b*w, for w > 0, puts a strictly below b. */
  lemma {:induction false} LessThrough(a: real, b: real, w: real, d: real)
    requires w > 0.0 && a * w <= d < b * w
    ensures a < b
  {
    LessByScaling(a, b, w);
  }

  /** Dividing out a positive factor keeps a strict order. */
  lemma {:induction false} LessByScaling(a: real, b: real, w: real)
    requires w > 0.0 && a * w < b * w
    ensures a < b
  {
  }

  /** Dividing out a positive factor keeps a non-strict order. */
  lemma {:induction false} LessEqByScaling(a: real, b: real, w: real)
    requires w > 0.0 && a * w <= b * w
    ensures a <= b
  {
  }

  lemma {:induction false} ToBinMonotone(g: Grid, x: real, y: real)
    requires g.Valid() && x <= y
    ensures g.ToBin(x) <= g.ToBin(y)
  {
    var bx, bY := g.ToBin(x), g.ToBin(y);
    var top := g.offset + g.size as real * g.binWidth;
    if g.offset <= x && y < top {
      InBinLower(g, x);
      InBinUpper(g, y);
      OrderedBins(g.offset, g.binWidth, bx, bY, x, y);
    }
  }

  /** Two points in order lie in bins in order. */
  lemma {:induction false} OrderedBins(offset: real, w: real, a: nat, b: nat, x: real, y: real)
    requires w > 0.0 && x <= y
    requires offset + a as real * w <= x && y < offset + (b + 1) as real * w
    ensures a <= b
  {
    LessByScaling(a as real, (b + 1) as real, w);
  }

  lemma {:induction false} InBinLower(g: Grid, x: real)
    requires g.Valid() && g.offset <= x
    ensures g.offset + g.ToBin(x) as real * g.binWidth <= x
  {
    var top := g.offset + g.size as real * g.binWidth;
    if top <= x {
      MultiplyLess((g.size - 1) as real, g.size as real, g.binWidth);
    }
  }

  lemma {:induction false} InBinUpper(g: Grid, x: real)
    requires g.Valid() && x < g.offset + g.size as real * g.binWidth
    ensures x < g.offset + (g.ToBin(x) + 1) as real * g.binWidth
  {
    if x < g.offset {
      MultiplyStrict(0.0, 1.0, g.binWidth);
    }
  }

  /** Bin 0 stands for the offset; every other bin for its midpoint. */
  lemma {:induction false} MidpointsAndEdges(g: Grid, i: nat)
    requires g.Valid()
    ensures g.FromBinMid(0) == g.offset
    ensures g.FromBinFloor(0) == -BIG && g.FromBinCeil(g.size - 1) == BIG
    ensures 0 < i < g.size - 1 ==>
              g.FromBinFloor(i) < g.FromBinMid(i) < g.FromBinCeil(i) &&
              g.FromBinCeil(i) == g.FromBinFloor(i + 1)
  {
    if 0 < i < g.size - 1 {
      MultiplyStrict(i as real, i as real + 0.5, g.binWidth);
      MultiplyStrict(i as real + 0.5, (i + 1) as real, g.binWidth);
    }
  }

  /** Every bin's representative value falls back into that bin. */
  lemma {:induction false} ToBinOfMid(g: Grid, i: nat)
    requires g.Valid() && i < g.size
    ensures g.ToBin(g.FromBinMid(i)) == i
  {
    if i == 0 {
      MultiplyStrict(0.0, 1.0, g.binWidth);
      ToBinExact(g, g.offset, 0);
    } else {
      MultiplyStrict(i as real, i as real + 0.5, g.binWidth);
      MultiplyStrict(i as real + 0.5, (i + 1) as real, g.binWidth);
      ToBinExact(g, g.FromBinMid(i), i);
    }
  }

  /** Midpoints strictly increase with the bin index. */
  lemma {:induction false} MidMonotone(g: Grid, i: nat, j: nat)
    requires g.Valid() && i < j
    ensures g.FromBinMid(i) < g.FromBinMid(j)
  {
    if i == 0 {
      MultiplyStrict(0.0, j as real + 0.5, g.binWidth);
    } else {
      MultiplyStrict(i as real + 0.5, j as real + 0.5, g.binWidth);
    }
  }

  /** For |x| < BIG the edges of x's bin bracket it: SampleFloor(x) <= x < SampleCeil(x). */
  lemma {:induction false} SampleBrackets(g: Grid, x: real)
    requires g.Valid() && -BIG < x < BIG
    ensures g.SampleFloor(x) <= x < g.SampleCeil(x)
  {
    var b := g.ToBin(x);
    var top := g.offset + g.size as real * g.binWidth;
    if b > 0 {
      if top <= x {
        MultiplyLess(b as real, g.size as real, g.binWidth);
      }
    }
    if b < g.size - 1 {
      assert x < top;
    }
  }

  /** The edges of a bin of a grid inside (-BIG, BIG] are ordered. */
  lemma {:induction false} FloorBelowCeil(g: Grid, b: nat)
    requires g.Valid() && g.WithinBig() && b < g.size
    ensures g.FromBinFloor(b) < g.FromBinCeil(b)
  {
    if b > 0 && b < g.size - 1 {
      MultiplyStrict(b as real, (b + 1) as real, g.binWidth);
    } else if b > 0 {
      MultiplyStrict(b as real, g.size as real, g.binWidth);
    } else if b < g.size - 1 {
      MultiplyStrict(0.0, 1.0, g.binWidth);
    }
  }

  /** An interior lower edge falls back into its own bin. */
  lemma {:induction false} ToBinOfFloor(g: Grid, b: nat)
    requires g.Valid() && 0 < b < g.size
    ensures g.ToBin(g.FromBinFloor(b)) == b
  {
    MultiplyStrict(b as real, (b + 1) as real, g.binWidth);
    ToBinExact(g, g.FromBinFloor(b), b);
  }

  /**
   * The bins for_range visits for [lo, hi]: from lo's bin up to ONE PAST hi's
   * bin (clamped), because the upper edge of hi's bin belongs to the next bin.
   */
  function RangeLow(g: Grid, lo: real): nat
    requires g.Valid()
  {
    g.ToBin(g.SampleFloor(lo))
  }

  function RangeHigh(g: Grid, hi: real): nat
    requires g.Valid()
  {
    g.ToBin(g.SampleCeil(hi))
  }

  lemma {:induction false} RangeBounds(g: Grid, lo: real, hi: real)
    requires g.Valid() && g.WithinBig()
    ensures RangeLow(g, lo) == g.ToBin(lo)
    ensures RangeHigh(g, hi) == if g.ToBin(hi) + 1 < g.size then g.ToBin(hi) + 1 else g.size - 1
  {
    RangeLowBound(g, lo);
    RangeHighBound(g, hi);
  }

  lemma {:induction false} RangeLowBound(g: Grid, lo: real)
    requires g.Valid() && g.WithinBig()
    ensures RangeLow(g, lo) == g.ToBin(lo)
  {
    var bl := g.ToBin(lo);
    if bl > 0 {
      ToBinOfFloor(g, bl);
    } else {
      assert g.SampleFloor(lo) == -BIG < g.offset;
    }
  }

  lemma {:induction false} RangeHighBound(g: Grid, hi: real)
    requires g.Valid() && g.WithinBig()
    ensures RangeHigh(g, hi) == if g.ToBin(hi) + 1 < g.size then g.ToBin(hi) + 1 else g.size - 1
  {
    var bh := g.ToBin(hi);
    if bh + 1 < g.size {
      assert g.SampleCeil(hi) == g.FromBinFloor(bh + 1);
      ToBinOfFloor(g, bh + 1);
    } else {
      assert g.SampleCeil(hi) == BIG >= g.offset + g.size as real * g.binWidth;
    }
  }

  /** The cumulative weight of bins 0..j. */
  function Cumulative(w: seq<real>, j: nat): real
    requires j < |w|
  {
    Sum(w[..j + 1])
  }

  /**
   * The index of the first bin whose cumulative weight reaches x, or |w| when
   * the total never does.
   */
  function FirstReaching(w: seq<real>, x: real): (k: nat)
    ensures k <= |w|
    ensures k < |w| ==> Cumulative(w, k) >= x
    ensures forall j :: 0 <= j < k && j < |w| ==> Cumulative(w, j) < x
  {
    FirstReachingFrom(w, x, 0)
  }

  function FirstReachingFrom(w: seq<real>, x: real, i: nat): (k: nat)
    requires i <= |w|
    ensures i <= k <= |w|
    ensures k < |w| ==> Cumulative(w, k) >= x
    ensures forall j :: i <= j < k ==> Cumulative(w, j) < x
    decreases |w| - i
  {
    if i == |w| then i
    else if Cumulative(w, i) >= x then i
    else FirstReachingFrom(w, x, i + 1)
  }

  /** lower_quantile's answer, given the first bin whose cumulative weight reaches x. */
  function QuantileOfBin(g: Grid, k: nat): real
    requires g.Valid()
  {
    if k >= g.size then g.FromBinFloor(g.size - 1)
    else if k == 0 then 0.0
    else g.FromBinFloor(k)
  }

  function LowerQuantileOf(g: Grid, w: seq<real>, x: real): real
    requires g.Valid() && |w| == g.size
  {
    QuantileOfBin(g, FirstReaching(w, x))
  }

  /** A larger target is reached no earlier. */
  lemma {:induction false} FirstReachingMonotone(w: seq<real>, x: real, y: real)
    requires x <= y
    ensures FirstReaching(w, x) <= FirstReaching(w, y)
  {
  }

  /**
   * lower_quantile is non-decreasing in its target, given at least two bins
   * and offset + binWidth >= 0 (so that the 0 returned for bin 0 lies below
   * every other bin's lower edge).
   */
  lemma {:induction false} LowerQuantileMonotone(g: Grid, w: seq<real>, x: real, y: real)
    requires g.Valid() && |w| == g.size && g.size >= 2 && g.offset + g.binWidth >= 0.0
    requires x <= y
    ensures LowerQuantileOf(g, w, x) <= LowerQuantileOf(g, w, y)
  {
    FirstReachingMonotone(w, x, y);
    QuantileOfBinMonotone(g, FirstReaching(w, x), FirstReaching(w, y));
  }

  lemma {:induction false} QuantileOfBinMonotone(g: Grid, a: nat, b: nat)
    requires g.Valid() && g.size >= 2 && g.offset + g.binWidth >= 0.0
    requires a <= b
    ensures QuantileOfBin(g, a) <= QuantileOfBin(g, b)
  {
    var ca := if a >= g.size then g.size - 1 else a;
    var cb := if b >= g.size then g.size - 1 else b;
    assert ca <= cb;
    if ca == 0 {
      if cb > 0 {
        assert QuantileOfBin(g, b) == cb as real * g.binWidth + g.offset;
        MultiplyLess(1.0, cb as real, g.binWidth);
      }
    } else {
      assert QuantileOfBin(g, a) == ca as real * g.binWidth + g.offset;
      assert QuantileOfBin(g, b) == cb as real * g.binWidth + g.offset;
      MultiplyLess(ca as real, cb as real, g.binWidth);
    }
  }

  /** The three cases of lower_quantile. */
  lemma {:induction false} LowerQuantileCases(g: Grid, w: seq<real>, x: real)
    requires g.Valid() && |w| == g.size
    ensures w[0] >= x ==> LowerQuantileOf(g, w, x) == 0.0
    ensures forall k :: 0 < k < |w| && Cumulative(w, k) >= x &&
                        (forall j :: 0 <= j < k ==> Cumulative(w, j) < x) ==>
              LowerQuantileOf(g, w, x) == g.FromBinFloor(k)
    ensures Sum(w) < x && NonNegative(w) ==> LowerQuantileOf(g, w, x) == g.FromBinFloor(g.size - 1)
  {
    assert Sum(w[..1]) == w[0] by {
      assert w[..1][..0] == [];
    }
    if Sum(w) < x && NonNegative(w) {
      forall j | 0 <= j < |w|
        ensures Cumulative(w, j) < x
      {
        SumPrefixMonotone(w, j + 1, |w|);
        assert w[..|w|] == w;
      }
    }
  }

  /** Column `count` of a per-bin table, restricted to the first n rows. */
  function Column(table: seq<seq<real>>, count: nat, n: nat): (c: seq<real>)
    requires n <= |table| && forall i :: 0 <= i < n ==> count < |table[i]|
    ensures |c| == n
  {
    seq(n, i requires 0 <= i < n => table[i][count])
  }

  /** The histogram: a fixed grid and one weight per bin. */
  class SampledFunction {
    const offset: real
    const binWidth: real
    var weights: seq<real>

    ghost predicate Valid()
      reads this
    {
      binWidth > 0.0 && |weights| >= 1
    }

    /** The grid the weights are laid out on. */
    function Layout(): Grid
      reads this
    {
      Grid(offset, binWidth, |weights|)
    }

    /**
     * Bin width (max - min) / n and n + 1 bins, all weighted 1.0; the bin
     * count is computed as the source does, int((max - min) / width) + 1.
     */
    constructor (numSamples: int, maximumValue: real, minimumValue: real)
      requires numSamples > 0 && maximumValue > minimumValue
      ensures Valid()
      ensures offset == minimumValue
      ensures binWidth == (maximumValue - minimumValue) / numSamples as real
      ensures weights == seq(numSamples + 1, _ => 1.0)
    {
      var width := (maximumValue - minimumValue) / numSamples as real;
      var count := Truncate((maximumValue - minimumValue) / width) + 1;
      assert (maximumValue - minimumValue) / width == numSamples as real;
      offset := minimumValue;
      binWidth := width;
      weights := seq(count, _ => 1.0);
    }

    /** The copy constructor: same grid, same weights. */
    constructor Copy(other: SampledFunction)
      requires other.Valid()
      ensures Valid()
      ensures offset == other.offset && binWidth == other.binWidth && weights == other.weights
    {
      offset := other.offset;
      binWidth := other.binWidth;
      weights := other.weights;
    }

    function Size(): nat
      reads this
    {
      |weights|
    }

    /** index(x) */
    function Index(x: real): (b: nat)
      reads this
      requires Valid()
      ensures b < |weights|
    {
      Layout().ToBin(x)
    }

    /** The read form of operator[]: the weight of the bin holding x. */
    function At(x: real): (v: real)
      reads this
      requires Valid()
      ensures v == weights[Index(x)]
    {
      weights[Layout().ToBin(x)]
    }

    /** The write form of operator[]: the cell written is the one Index(x) names. */
    method Put(x: real, v: real)
      requires Valid()
      modifies this
      ensures Valid() && Layout() == old(Layout())
      ensures weights == old(weights)[old(Index(x)) := v]
      ensures At(x) == v
    {
      weights := weights[Layout().ToBin(x) := v];
    }

    /** for_each (mutable form): every bin, in increasing order, gets f(midpoint, value, index). */
    method ForEach(f: (real, real, nat) -> real)
      requires Valid()
      modifies this
      ensures Valid() && Layout() == old(Layout())
      ensures forall i :: 0 <= i < |weights| ==>
                weights[i] == f(Layout().FromBinMid(i), old(weights)[i], i)
    {
      var g := Layout();
      var i := 0;
      while i < |weights|
        invariant 0 <= i <= |weights| == g.size
        invariant forall j :: 0 <= j < i ==> weights[j] == f(g.FromBinMid(j), old(weights)[j], j)
        invariant forall j :: i <= j < |weights| ==> weights[j] == old(weights)[j]
      {
        weights := weights[i := f(g.FromBinMid(i), weights[i], i)];
        i := i + 1;
      }
    }

    /** The fold the read-only for_each performs with a closure over an accumulator. */
    ghost function FoldBins<A>(init: A, f: (A, real, real, nat) -> A, n: nat): A
      reads this
      requires n <= |weights|
    {
      if n == 0 then init else f(FoldBins(init, f, n - 1), Layout().FromBinMid(n - 1), weights[n - 1], n - 1)
    }

    /** for_each (read-only form): accumulates f over every bin in increasing order. */
    method Accumulate<A>(init: A, f: (A, real, real, nat) -> A) returns (acc: A)
      requires Valid()
      ensures acc == FoldBins(init, f, |weights|)
    {
      var g := Layout();
      acc := init;
      var i := 0;
      while i < |weights|
        invariant 0 <= i <= |weights|
        invariant acc == FoldBins(init, f, i)
      {
        acc := f(acc, g.FromBinMid(i), weights[i], i);
        i := i + 1;
      }
    }

    /**
     * for_range: applies f to the contiguous bins RangeLow(min)..RangeHigh(max)
     * and leaves every other bin unchanged.
     */
    method ForRange(min: real, max: real, f: (real, real, nat) -> real)
      requires Valid()
      modifies this
      ensures Valid() && Layout() == old(Layout())
      ensures forall i :: 0 <= i < |weights| ==>
                weights[i] == if RangeLow(Layout(), min) <= i <= RangeHigh(Layout(), max)
                              then f(Layout().FromBinMid(i), old(weights)[i], i)
                              else old(weights)[i]
    {
      var g := Layout();
      var limitHigh := g.ToBin(g.SampleCeil(max));
      var i := g.ToBin(g.SampleFloor(min));
      ghost var low := i;
      while i <= limitHigh
        invariant |weights| == g.size
        invariant low <= i && (i == low || i <= limitHigh + 1)
        invariant forall j :: 0 <= j < |weights| ==>
                    weights[j] == if low <= j < i then f(g.FromBinMid(j), old(weights)[j], j) else old(weights)[j]
      {
        weights := weights[i := f(g.FromBinMid(i), weights[i], i)];
        i := i + 1;
      }
    }

    /** operator=: both sides must share the grid's offset and width; the weights are copied. */
    method Assign(other: SampledFunction)
      requires Valid() && other.Valid()
      requires offset == other.offset && binWidth == other.binWidth
      modifies this
      ensures Valid() && weights == old(other.weights)
    {
      weights := other.weights;
    }

    /** lower_quantile: the cumulative walk from bin 0. */
    method LowerQuantile(x: real) returns (r: real)
      requires Valid()
      ensures r == LowerQuantileOf(Layout(), weights, x)
    {
      var g := Layout();
      var sum := 0.0;
      var i := 0;
      while i < |weights|
        invariant 0 <= i <= |weights|
        invariant sum == Sum(weights[..i])
        invariant FirstReachingFrom(weights, x, i) == FirstReaching(weights, x)
      {
        assert weights[..i + 1][..i] == weights[..i];
        sum := sum + weights[i];
        if sum >= x {
          if i == 0 {
            return 0.0;
          } else {
            return g.FromBinFloor(i);
          }
        }
        i := i + 1;
      }
      return g.FromBinFloor(|weights| - 1);
    }

    /** summation(cp, count) = the sum over bins i of weight[i] * cp[i][count]. */
    method Summation(countProbability: seq<seq<real>>, count: nat) returns (r: real)
      requires Valid()
      requires |weights| <= |countProbability|
      requires forall i :: 0 <= i < |weights| ==> count < |countProbability[i]|
      ensures r == Dot(weights, Column(countProbability, count, |weights|))
    {
      var col := Column(countProbability, count, |weights|);
      r := 0.0;
      var i := 0;
      while i < |weights|
        invariant 0 <= i <= |weights|
        invariant r == Dot(weights[..i], col)
      {
        assert weights[..i + 1][..i] == weights[..i];
        r := r + weights[i] * countProbability[i][count];
        i := i + 1;
      }
      assert weights[..|weights|] == weights;
    }
  }

  /** Against a one-hot weight vector at j, summation picks out cp[j][count]. */
  lemma {:induction false} SummationOneHot(table: seq<seq<real>>, count: nat, n: nat, j: nat)
    requires j < n <= |table| && forall i :: 0 <= i < n ==> count < |table[i]|
    ensures Dot(OneHot(n, j), Column(table, count, n)) == table[j][count]
  {
    DotOneHot(n, j, Column(table, count, n));
  }
}
