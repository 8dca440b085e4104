/**
 * ProcessForecastTick and ProcessForecastInterval: per-bin tables of count
 * distributions.  Component i of a table is the process made certain of bin
 * i's rate; an ensemble's forecast is the weighted sum of the components'
 * rows (SampledFunction.summation), capped at 1.
 */
module ProcessForecasters {
  import opened Sums
  import opened SampledFunctions
  import opened Processes

  /** Row i: P(count = c) in one tick for c below the limit, then the rest of the mass. */
  datatype TickForecast = TickForecast(countProbability: seq<seq<real>>)

  /** Row i: the distribution of the total count over the interval's ticks. */
  datatype IntervalForecast = IntervalForecast(countProbability: seq<seq<real>>)

  /** Every row has the given length. */
  predicate Rectangular(rows: seq<seq<real>>, width: nat)
  {
    forall i :: 0 <= i < |rows| ==> |rows[i]| == width
  }

  /** The cap both probability methods apply to the summation. */
  function Clamp(x: real): real
  {
    if x > 1.0 then 1.0 else x
  }

  /** probability(ensemble, count): the ensemble-weighted column `count` of a table, capped at 1. */
  function EnsembleProbability(rows: seq<seq<real>>, w: seq<real>, count: nat): real
    requires |w| <= |rows| && forall i :: 0 <= i < |w| ==> count < |rows[i]|
  {
    Clamp(Dot(w, Column(rows, count, |w|)))
  }

  /** A certain ensemble reads its own component's entry. */
  lemma {:induction false} EnsembleProbabilityOfCertain(rows: seq<seq<real>>, n: nat, j: nat, count: nat)
    requires j < n <= |rows| && forall i :: 0 <= i < n ==> count < |rows[i]|
    ensures EnsembleProbability(rows, OneHot(n, j), count) == Clamp(rows[j][count])
  {
    SummationOneHot(rows, count, n, j);
  }

  /**
   * For a normalized non-negative ensemble over a column of probabilities the
   * cap never fires and the result is itself a probability.
   */
  lemma {:induction false} EnsembleProbabilityBounded(rows: seq<seq<real>>, w: seq<real>, count: nat)
    requires |w| <= |rows| && forall i :: 0 <= i < |w| ==> count < |rows[i]|
    requires NonNegative(w) && Sum(w) == 1.0
    requires forall i :: 0 <= i < |w| ==> 0.0 <= rows[i][count] <= 1.0
    ensures EnsembleProbability(rows, w, count) == Dot(w, Column(rows, count, |w|))
    ensures 0.0 <= EnsembleProbability(rows, w, count) <= 1.0
  {
    DotBounds(w, Column(rows, count, |w|));
  }

  /** The one-tick count likelihoods of the component certain of bin i, for counts below the limit. */
  function CountLikelihoods(g: Grid, tickTime: real, upperLimit: nat, boostPdf: (real, nat) -> real, i: nat)
    : (l: seq<real>)
    ensures |l| == upperLimit
  {
    seq(upperLimit, c requires 0 <= c => Likelihood(boostPdf, g.FromBinMid(i), tickTime, c))
  }

  /** Row i of the tick forecast: the likelihoods, then 1 minus their total for "the limit or more". */
  function TickRow(g: Grid, tickTime: real, upperLimit: nat, boostPdf: (real, nat) -> real, i: nat)
    : (row: seq<real>)
    ensures |row| == upperLimit + 1
  {
    var l := CountLikelihoods(g, tickTime, upperLimit, boostPdf, i);
    l + [1.0 - Sum(l)]
  }

  /** The whole tick forecast table, one row per bin. */
  function TickTable(g: Grid, tickTime: real, upperLimit: nat, boostPdf: (real, nat) -> real)
    : (t: seq<seq<real>>)
    ensures |t| == g.size && Rectangular(t, upperLimit + 1)
  {
    seq(g.size, i requires 0 <= i => TickRow(g, tickTime, upperLimit, boostPdf, i))
  }

  /**
   * A tick row is a distribution over "c arrivals" for c below the limit and
   * "the limit or more": it sums to 1, and its first entries are probabilities.
   */
  lemma {:induction false} TickRowTotal(g: Grid, tickTime: real, upperLimit: nat, boostPdf: (real, nat) -> real, i: nat)
    ensures Sum(TickRow(g, tickTime, upperLimit, boostPdf, i)) == 1.0
    ensures IsCountPmf(boostPdf) ==>
              forall c :: 0 <= c < upperLimit ==> 0.0 <= TickRow(g, tickTime, upperLimit, boostPdf, i)[c] <= 1.0
  {
    var l := CountLikelihoods(g, tickTime, upperLimit, boostPdf, i);
    SumAppend(l, [1.0 - Sum(l)]);
    assert [1.0 - Sum(l)][..0] == [];
  }

  /** Component i as make_components builds it: a copy of the example made certain of bin i. */
  ghost predicate CertainComponent(c: Process, example: Process, i: nat)
    reads c, c.pmf, c.gaussian, c.gaussian.cdf, example, example.pmf, example.gaussian, example.gaussian.cdf
  {
    && c.Valid() && c.normalized
    && c.pmf.Layout() == example.pmf.Layout()
    && c.pmf.weights == OneHot(|example.pmf.weights|, i)
    && c.gaussian.cdf.Layout() == example.gaussian.cdf.Layout()
    && c.gaussian.cdf.weights == example.gaussian.cdf.weights
    && c.gaussian.stddev == example.gaussian.stddev
    && c.brownianMotionRate == example.brownianMotionRate
    && c.outageEscapeRate == example.outageEscapeRate
  }

  /** One step of make_components: a copy of the example, made certain of bin index's midpoint. */
  method MakeComponent(example: Process, index: nat) returns (component: Process)
    requires example.Valid() && index < |example.pmf.weights|
    ensures fresh(component.Repr()) && CertainComponent(component, example, index)
  {
    var g := example.pmf.Layout();
    var midpoint := g.FromBinMid(index);
    component := new Process.Copy(example);
    component.SetCertain(midpoint);
    ToBinOfMid(g, index);
  }

  /** make_components: one fresh, independent process per bin, certain of that bin's midpoint rate. */
  method MakeComponents(example: Process) returns (components: seq<Process>)
    requires example.Valid()
    ensures |components| == |example.pmf.weights|
    ensures forall k :: 0 <= k < |components| ==> fresh(components[k].Repr())
    ensures forall k, l :: 0 <= k < l < |components| ==> components[k].Repr() !! components[l].Repr()
    ensures forall k :: 0 <= k < |components| ==> CertainComponent(components[k], example, k)
  {
    components := [];
    var index := 0;
    while index < |example.pmf.weights|
      invariant 0 <= index <= |example.pmf.weights| && |components| == index
      invariant forall k :: 0 <= k < index ==> fresh(components[k].Repr())
      invariant forall k, l :: 0 <= k < l < index ==> components[k].Repr() !! components[l].Repr()
      invariant forall k :: 0 <= k < index ==> CertainComponent(components[k], example, k)
    {
      var component := MakeComponent(example, index);
      components := components + [component];
      index := index + 1;
    }
  }

  /** The ProcessForecastTick constructor: the tick row of every component. */
  method MakeTickForecast(tickTime: real, example: Process, upperLimit: nat, boostPdf: (real, nat) -> real)
    returns (f: TickForecast)
    requires example.Valid()
    ensures f.countProbability == TickTable(example.pmf.Layout(), tickTime, upperLimit, boostPdf)
  {
    var components := MakeComponents(example);
    var g := example.pmf.Layout();
    var rows: seq<seq<real>> := [];
    var k := 0;
    while k < |components|
      modifies {}
      invariant 0 <= k <= |components| == g.size
      invariant rows == TickTable(g, tickTime, upperLimit, boostPdf)[..k]
    {
      var row := TickRowOf(components[k], g, tickTime, upperLimit, boostPdf, k);
      assert rows + [row] == TickTable(g, tickTime, upperLimit, boostPdf)[..k + 1];
      rows := rows + [row];
      k := k + 1;
    }
    f := TickForecast(rows);
  }

  /** One row of the tick forecast: the count probabilities of a certain component, then the remainder. */
  method TickRowOf(component: Process, g: Grid, tickTime: real, upperLimit: nat, boostPdf: (real, nat) -> real,
                   ghost k: nat) returns (row: seq<real>)
    requires component.Valid() && component.pmf.Layout() == g && k < g.size
    requires component.pmf.weights == OneHot(g.size, k)
    ensures row == TickRow(g, tickTime, upperLimit, boostPdf, k)
  {
    ghost var l := CountLikelihoods(g, tickTime, upperLimit, boostPdf, k);
    row := [];
    var total := 0.0;
    var c := 0;
    while c < upperLimit
      invariant 0 <= c <= upperLimit
      invariant row == l[..c] && total == Sum(row)
    {
      var prob := component.CountProbability(tickTime, c, boostPdf);
      CountProbabilityOfCertain(g, k, tickTime, c, boostPdf);
      assert (row + [prob])[..c] == row;
      row := row + [prob];
      total := total + prob;
      c := c + 1;
    }
    assert row == l;
    row := row + [1.0 - total];
  }

  /** ProcessForecastTick::probability. */
  method TickProbability(f: TickForecast, ensemble: Process, count: nat) returns (r: real)
    requires ensemble.Valid() && ensemble.normalized
    requires |ensemble.pmf.weights| == |f.countProbability| > 0
    requires Rectangular(f.countProbability, |f.countProbability[0]|) && count < |f.countProbability[0]|
    ensures r == EnsembleProbability(f.countProbability, ensemble.pmf.weights, count)
  {
    r := ensemble.pmf.Summation(f.countProbability, count);
    if r > 1.0 {
      r := 1.0;
    }
  }

  // ---------------------------------------------------------------- convolve

  /** The product old[i] * tick[k - i] when k - i indexes tick, else 0. */
  function ConvTerm(a: seq<real>, b: seq<real>, k: int, i: nat): real
    requires i < |a|
  {
    if 0 <= k - i < |b| then a[i] * b[k - i] else 0.0
  }

  /** Entry k of the convolution after the first m entries of a have been added in. */
  function ConvPartial(a: seq<real>, b: seq<real>, k: int, m: nat): real
    requires m <= |a|
  {
    if m == 0 then 0.0 else ConvPartial(a, b, k, m - 1) + ConvTerm(a, b, k, m - 1)
  }

  /** The distribution of the sum of two independent counts: entry k sums a[i] * b[j] over i + j == k. */
  function Convolution(a: seq<real>, b: seq<real>): (r: seq<real>)
    requires |a| + |b| >= 1
    ensures |r| == |a| + |b| - 1
  {
    seq(|a| + |b| - 1, k requires 0 <= k => ConvPartial(a, b, k, |a|))
  }

  /** convolve: the double loop adding old[i] * tick[j] into ret[i + j]. */
  method Convolve(oldCountProbabilities: seq<real>, thisTick: seq<real>) returns (ret: seq<real>)
    requires |oldCountProbabilities| + |thisTick| >= 1
    ensures ret == Convolution(oldCountProbabilities, thisTick)
  {
    var a, b := oldCountProbabilities, thisTick;
    ret := seq(|a| + |b| - 1, _ => 0.0);
    var oldCount := 0;
    while oldCount < |a|
      invariant 0 <= oldCount <= |a| && |ret| == |a| + |b| - 1
      invariant forall k :: 0 <= k < |ret| ==> ret[k] == ConvPartial(a, b, k, oldCount)
    {
      var newCount := 0;
      while newCount < |b|
        invariant 0 <= newCount <= |b| && |ret| == |a| + |b| - 1
        invariant forall k :: 0 <= k < |ret| ==>
                    ret[k] == ConvPartial(a, b, k, oldCount)
                              + (if oldCount <= k < oldCount + newCount then a[oldCount] * b[k - oldCount] else 0.0)
      {
        ret := ret[oldCount + newCount := ret[oldCount + newCount] + a[oldCount] * b[newCount]];
        newCount := newCount + 1;
      }
      oldCount := oldCount + 1;
    }
  }

  /** The convolution of non-negative sequences is non-negative. */
  lemma {:induction false} ConvolutionNonNegative(a: seq<real>, b: seq<real>)
    requires |a| + |b| >= 1 && NonNegative(a) && NonNegative(b)
    ensures NonNegative(Convolution(a, b))
  {
    forall k | 0 <= k < |a| + |b| - 1
      ensures ConvPartial(a, b, k, |a|) >= 0.0
    {
      ConvPartialNonNegative(a, b, k, |a|);
    }
  }

  lemma {:induction false} ConvPartialNonNegative(a: seq<real>, b: seq<real>, k: int, m: nat)
    requires m <= |a| && NonNegative(a) && NonNegative(b)
    ensures ConvPartial(a, b, k, m) >= 0.0
  {
    if m > 0 {
      ConvPartialNonNegative(a, b, k, m - 1);
      if 0 <= k - (m - 1) < |b| {
        ProductNonNegative(1.0, a[m - 1], b[k - (m - 1)]);
      }
    }
  }

  /** Convolving with the seed [1] changes nothing. */
  lemma {:induction false} ConvolutionUnit(v: seq<real>)
    ensures Convolution([1.0], v) == v
  {
    forall k | 0 <= k < |v|
      ensures ConvPartial([1.0], v, k, 1) == v[k]
    {
      assert ConvTerm([1.0], v, k, 0) == 1.0 * v[k];
    }
  }

  /** Sum over k < K of entry k of the partial convolution. */
  function PartialTotal(a: seq<real>, b: seq<real>, m: nat, K: nat): real
    requires m <= |a|
  {
    if K == 0 then 0.0 else PartialTotal(a, b, m, K - 1) + ConvPartial(a, b, K - 1, m)
  }

  /** Sum over k < K of the terms a[i] contributes. */
  function TermTotal(a: seq<real>, b: seq<real>, i: nat, K: nat): real
    requires i < |a|
  {
    if K == 0 then 0.0 else TermTotal(a, b, i, K - 1) + ConvTerm(a, b, K - 1, i)
  }

  lemma {:induction false} SumIsPartialTotal(a: seq<real>, b: seq<real>, K: nat)
    requires |a| + |b| >= 1 && K <= |a| + |b| - 1
    ensures Sum(Convolution(a, b)[..K]) == PartialTotal(a, b, |a|, K)
  {
    if K > 0 {
      SumIsPartialTotal(a, b, K - 1);
      assert Convolution(a, b)[..K][..K - 1] == Convolution(a, b)[..K - 1];
    }
  }

  lemma {:induction false} PartialTotalSplit(a: seq<real>, b: seq<real>, m: nat, K: nat)
    requires 1 <= m <= |a|
    ensures PartialTotal(a, b, m, K) == PartialTotal(a, b, m - 1, K) + TermTotal(a, b, m - 1, K)
  {
    if K > 0 {
      PartialTotalSplit(a, b, m, K - 1);
    }
  }

  lemma {:induction false} PartialTotalEmpty(a: seq<real>, b: seq<real>, K: nat)
    ensures PartialTotal(a, b, 0, K) == 0.0
  {
    if K > 0 {
      PartialTotalEmpty(a, b, K - 1);
    }
  }

  /** Up to i + |b| the terms of a[i] sum to a[i] times a prefix sum of b. */
  lemma {:induction false} TermTotalPrefix(a: seq<real>, b: seq<real>, i: nat, K: nat)
    requires i < |a| && K <= i + |b|
    ensures TermTotal(a, b, i, K) == if K <= i then 0.0 else a[i] * Sum(b[..K - i])
  {
    if K > 0 {
      TermTotalPrefix(a, b, i, K - 1);
      if K > i {
        var p := b[..K - i];
        assert p[..K - 1 - i] == b[..K - 1 - i];
        if K - 1 > i {
          assert a[i] * Sum(p) == a[i] * Sum(b[..K - 1 - i]) + a[i] * b[K - 1 - i];
        } else {
          assert p[..0] == [];
        }
      }
    }
  }

  /** Past i + |b|, every term of a[i] is in: they sum to a[i] times the total of b. */
  lemma {:induction false} TermTotalFull(a: seq<real>, b: seq<real>, i: nat, K: nat)
    requires i < |a| && K >= i + |b|
    ensures TermTotal(a, b, i, K) == a[i] * Sum(b)
  {
    if K == i + |b| {
      TermTotalPrefix(a, b, i, K);
      assert b[..|b|] == b;
      if K <= i {
        assert b == [];
      }
    } else {
      TermTotalFull(a, b, i, K - 1);
    }
  }

  lemma {:induction false} PartialTotalFull(a: seq<real>, b: seq<real>, m: nat, K: nat)
    requires m <= |a| && K + 1 >= m + |b|
    ensures PartialTotal(a, b, m, K) == Sum(a[..m]) * Sum(b)
  {
    if m == 0 {
      PartialTotalEmpty(a, b, K);
    } else {
      PartialTotalSplit(a, b, m, K);
      PartialTotalFull(a, b, m - 1, K);
      TermTotalFull(a, b, m - 1, K);
      assert a[..m][..m - 1] == a[..m - 1];
      Distribute(Sum(a[..m]), Sum(a[..m - 1]), a[m - 1], Sum(b));
    }
  }

  lemma {:induction false} Distribute(s: real, p: real, x: real, t: real)
    requires s == p + x
    ensures s * t == p * t + x * t
  {
  }

  /** The total of a convolution is the product of the totals: it conserves probability mass. */
  lemma {:induction false} ConvolutionTotal(a: seq<real>, b: seq<real>)
    requires |a| + |b| >= 1
    ensures Sum(Convolution(a, b)) == Sum(a) * Sum(b)
  {
    var K: nat := |a| + |b| - 1;
    ConvolutionSumIsTotal(a, b, K);
    PartialTotalAll(a, b, K);
  }

  lemma {:induction false} PartialTotalAll(a: seq<real>, b: seq<real>, K: nat)
    requires K + 1 == |a| + |b|
    ensures PartialTotal(a, b, |a|, K) == Sum(a) * Sum(b)
  {
    PartialTotalFull(a, b, |a|, K);
    assert a[..|a|] == a;
  }

  lemma {:induction false} ConvolutionSumIsTotal(a: seq<real>, b: seq<real>, K: nat)
    requires K + 1 == |a| + |b|
    ensures Sum(Convolution(a, b)) == PartialTotal(a, b, |a|, K)
  {
    SumIsPartialTotal(a, b, K);
    assert Convolution(a, b)[..K] == Convolution(a, b);
  }

  // ---------------------------------------------------------------- interval forecast

  /**
   * The interval row built from its tick vectors: the seed [1] convolved with
   * each tick in turn, so entry k is the chance of k arrivals over all ticks.
   */
  function Chain(ticks: seq<seq<real>>, width: nat): (r: seq<real>)
    requires Rectangular(ticks, width) && (width >= 1 || |ticks| <= 1)
    ensures |r| == ChainWidth(|ticks|, width)
  {
    if ticks == [] then [1.0]
    else
      var n := |ticks|;
      var prev := Chain(ticks[..n - 1], width);
      ChainWidthStep(n, width);
      Convolution(prev, ticks[n - 1])
  }

  /** The length of n ticks of `width` counts convolved onto the seed [1]: each tick adds width - 1. */
  function ChainWidth(n: nat, width: nat): (r: int)
    ensures width >= 1 ==> r >= 1
    ensures n <= 1 ==> r >= 0
  {
    if n == 0 then 1 else ChainWidth(n - 1, width) + width - 1
  }

  lemma {:induction false} ChainWidthStep(n: nat, width: nat)
    requires n >= 1 && (width >= 1 || n <= 1)
    ensures ChainWidth(n - 1, width) + width >= 1
    ensures ChainWidth(n - 1, width) + width - 1 == ChainWidth(n, width)
  {
  }

  /** An interval row over n ticks with a per-tick limit of `width` counts has 1 + n * (width - 1) entries. */
  lemma {:induction false} ChainWidthClosedForm(n: nat, width: nat)
    ensures ChainWidth(n, width) == 1 + n * (width - 1)
  {
    if n > 0 {
      ChainWidthClosedForm(n - 1, width);
      assert (n - 1) * (width - 1) + (width - 1) == n * (width - 1);
    }
  }

  /** The product of the tick vectors' totals. */
  function ProductOfTotals(ticks: seq<seq<real>>): real
  {
    if ticks == [] then 1.0 else ProductOfTotals(ticks[..|ticks| - 1]) * Sum(ticks[|ticks| - 1])
  }

  /** The interval row's total is the product of the ticks' totals. */
  lemma {:induction false} ChainTotal(ticks: seq<seq<real>>, width: nat)
    requires Rectangular(ticks, width) && (width >= 1 || |ticks| <= 1)
    ensures Sum(Chain(ticks, width)) == ProductOfTotals(ticks)
  {
    if ticks == [] {
      assert [1.0][..0] == [];
    } else {
      var n := |ticks|;
      ChainTotal(ticks[..n - 1], width);
      ChainTotalStep(ticks, width);
    }
  }

  /** One more tick multiplies the row's total by that tick's total. */
  lemma {:induction false} ChainTotalStep(ticks: seq<seq<real>>, width: nat)
    requires Rectangular(ticks, width) && (width >= 1 || |ticks| <= 1) && ticks != []
    requires Sum(Chain(ticks[..|ticks| - 1], width)) == ProductOfTotals(ticks[..|ticks| - 1])
    ensures Sum(Chain(ticks, width)) == ProductOfTotals(ticks)
  {
    var prefix, last := ticks[..|ticks| - 1], ticks[|ticks| - 1];
    var p, t := ProductOfTotals(prefix), Sum(last);
    assert ProductOfTotals(ticks) == p * t;
    ConvolutionScales(Chain(prefix, width), last, p, t);
  }

  /** ConvolutionTotal with the first factor's total already known as p. */
  lemma {:induction false} ConvolutionScales(a: seq<real>, b: seq<real>, p: real, t: real)
    requires |a| + |b| >= 1 && Sum(a) == p && Sum(b) == t
    ensures Sum(Convolution(a, b)) == p * t
  {
    ConvolutionTotal(a, b);
  }

  /** Non-negative tick vectors give a non-negative interval row. */
  lemma {:induction false} ChainNonNegative(ticks: seq<seq<real>>, width: nat)
    requires Rectangular(ticks, width) && (width >= 1 || |ticks| <= 1)
    requires forall t :: 0 <= t < |ticks| ==> NonNegative(ticks[t])
    ensures NonNegative(Chain(ticks, width))
  {
    if ticks != [] {
      ChainNonNegative(ticks[..|ticks| - 1], width);
      ChainNonNegativeStep(ticks, width);
    }
  }

  lemma {:induction false} ChainNonNegativeStep(ticks: seq<seq<real>>, width: nat)
    requires Rectangular(ticks, width) && (width >= 1 || |ticks| <= 1) && ticks != []
    requires NonNegative(Chain(ticks[..|ticks| - 1], width)) && NonNegative(ticks[|ticks| - 1])
    ensures NonNegative(Chain(ticks, width))
  {
    ConvolutionNonNegative(Chain(ticks[..|ticks| - 1], width), ticks[|ticks| - 1]);
  }

  /**
   * What an interval forecast is computed from: the belief grid and the
   * Gaussian cache's grid, the cached CDF table and deviation per tick, the
   * outage bin's escape probability per tick, the tick length, the per-tick
   * count limit and the Poisson pmf.
   */
  datatype IntervalSetting = IntervalSetting(grid: Grid, cacheGrid: Grid, table: seq<real>, stddev: real,
                                             zeroEscape: real, tickTime: real, tickUpperLimit: nat,
                                             boostPdf: (real, nat) -> real)

  /** The setting the interval constructor uses for a given example process. */
  function SettingOf(example: Process, tickTime: real, tickUpperLimit: nat, stddev: real,
                     normalCdf: (real, real) -> real, boostPdf: (real, nat) -> real): IntervalSetting
    reads example, example.pmf, example.gaussian, example.gaussian.cdf
  {
    var cg := example.gaussian.cdf.Layout();
    IntervalSetting(example.pmf.Layout(), cg, CdfTable(cg, normalCdf, stddev), stddev,
                    ZeroEscape(boostPdf, tickTime, example.outageEscapeRate), tickTime, tickUpperLimit, boostPdf)
  }

  /**
   * The conditions under which every normalize of the interval constructor
   * divides by a positive total: the table is non-decreasing, the escape
   * probability is a probability, and diffusion keeps mass (KeepsMass).
   */
  ghost predicate Spreads(s: IntervalSetting)
  {
    && s.grid.Valid() && s.grid.WithinBig() && s.cacheGrid.Valid() && |s.table| == s.cacheGrid.size
    && s.stddev >= 0.0 && 0.0 <= s.zeroEscape <= 1.0
    && (forall a: nat, b: nat :: a <= b < |s.table| ==> s.table[a] <= s.table[b])
    && KeepsMass(s.grid, s.cacheGrid, s.table, s.zeroEscape)
  }

  /**
   * A component's belief at the start of tick t: normalized, then evolved,
   * once per earlier tick.
   */
  function Trajectory(s: IntervalSetting, w: seq<real>, t: nat): (r: seq<real>)
    requires Spreads(s) && |w| == s.grid.size && NonNegative(w) && Sum(w) > 0.0
    ensures |r| == |w| && NonNegative(r) && Sum(r) > 0.0
  {
    if t == 0 then w
    else
      var prev := Trajectory(s, w, t - 1);
      NormalizedKeepsSigns(prev);
      var next := Diffused(s.grid, s.cacheGrid, s.table, s.stddev, s.zeroEscape, Normalized(prev));
      DiffusedLive(s.grid, s.cacheGrid, s.table, s.stddev, s.zeroEscape, Normalized(prev));
      LiveHasMass(next);
      next
  }

  /** The tick vector of a normalized belief w: the tick forecast's probability of each count below the limit. */
  function TickVector(s: IntervalSetting, w: seq<real>): (v: seq<real>)
    requires |w| == s.grid.size
    ensures |v| == s.tickUpperLimit
  {
    var rows := TickTable(s.grid, s.tickTime, s.tickUpperLimit, s.boostPdf);
    seq(s.tickUpperLimit, c requires 0 <= c < s.tickUpperLimit => EnsembleProbability(rows, w, c))
  }

  /** The tick vectors of the first k ticks of a component starting from belief w. */
  function TickVectors(s: IntervalSetting, w: seq<real>, k: nat): (ticks: seq<seq<real>>)
    requires Spreads(s) && |w| == s.grid.size && NonNegative(w) && Sum(w) > 0.0
    ensures |ticks| == k && Rectangular(ticks, s.tickUpperLimit)
  {
    if k == 0 then [] else TickVectors(s, w, k - 1) + [TickVector(s, Normalized(Trajectory(s, w, k - 1)))]
  }

  /** Row i of the interval forecast over numTicks ticks. */
  function IntervalRow(s: IntervalSetting, i: nat, numTicks: nat): (row: seq<real>)
    requires Spreads(s) && i < s.grid.size && (s.tickUpperLimit >= 1 || numTicks <= 1)
    ensures |row| == ChainWidth(numTicks, s.tickUpperLimit)
  {
    SumOneHot(s.grid.size, i);
    Chain(TickVectors(s, OneHot(s.grid.size, i), numTicks), s.tickUpperLimit)
  }

  /** The first n rows of the interval table, one per component, in component order. */
  function IntervalRows(s: IntervalSetting, numTicks: nat, n: nat): (t: seq<seq<real>>)
    requires Spreads(s) && n <= s.grid.size && (s.tickUpperLimit >= 1 || numTicks <= 1)
    ensures |t| == n
  {
    if n == 0 then [] else IntervalRows(s, numTicks, n - 1) + [IntervalRow(s, n - 1, numTicks)]
  }

  function IntervalTable(s: IntervalSetting, numTicks: nat): (t: seq<seq<real>>)
    requires Spreads(s) && (s.tickUpperLimit >= 1 || numTicks <= 1)
    ensures |t| == s.grid.size
  {
    IntervalRows(s, numTicks, s.grid.size)
  }

  /** Appending component i's row extends the first i rows of the table to i + 1. */
  lemma {:induction false} IntervalRowsStep(s: IntervalSetting, numTicks: nat, i: nat, rows: seq<seq<real>>, row: seq<real>)
    requires Spreads(s) && i < s.grid.size && (s.tickUpperLimit >= 1 || numTicks <= 1)
    requires rows == IntervalRows(s, numTicks, i) && row == IntervalRow(s, i, numTicks)
    ensures rows + [row] == IntervalRows(s, numTicks, i + 1)
  {
  }

  /** Row k of the interval table is component k's interval row. */
  lemma {:induction false} IntervalRowsAt(s: IntervalSetting, numTicks: nat, n: nat, k: nat)
    requires Spreads(s) && k < n <= s.grid.size && (s.tickUpperLimit >= 1 || numTicks <= 1)
    ensures IntervalRows(s, numTicks, n)[k] == IntervalRow(s, k, numTicks)
  {
    if k < n - 1 {
      IntervalRowsAt(s, numTicks, n - 1, k);
    }
  }

  /** Every row of the interval table has 1 + numTicks * (limit - 1) entries. */
  lemma {:induction false} IntervalTableRectangular(s: IntervalSetting, numTicks: nat)
    requires Spreads(s) && (s.tickUpperLimit >= 1 || numTicks <= 1)
    ensures Rectangular(IntervalTable(s, numTicks), ChainWidth(numTicks, s.tickUpperLimit))
  {
    var t := IntervalTable(s, numTicks);
    forall i | 0 <= i < |t|
      ensures |t[i]| == ChainWidth(numTicks, s.tickUpperLimit)
    {
      IntervalRowsAt(s, numTicks, s.grid.size, i);
    }
  }

  /**
   * Under a normalized non-negative belief the tick vector holds the
   * process's own count probabilities (Process.CountProbability): the cap
   * never fires, and each entry is a probability.
   */
  lemma {:induction false} TickVectorIsCountProbability(s: IntervalSetting, w: seq<real>, c: nat)
    requires |w| == s.grid.size && NonNegative(w) && Sum(w) == 1.0 && IsCountPmf(s.boostPdf)
    requires c < s.tickUpperLimit
    ensures TickVector(s, w)[c] == Dot(w, Likelihoods(s.grid, s.tickTime, c, s.boostPdf))
    ensures 0.0 <= TickVector(s, w)[c] <= 1.0
  {
    var rows := TickTable(s.grid, s.tickTime, s.tickUpperLimit, s.boostPdf);
    var column := Column(rows, c, |w|);
    var l := Likelihoods(s.grid, s.tickTime, c, s.boostPdf);
    forall i | 0 <= i < |w|
      ensures column[i] == l[i] && 0.0 <= column[i] <= 1.0
    {
      assert rows[i] == TickRow(s.grid, s.tickTime, s.tickUpperLimit, s.boostPdf, i);
      assert column[i] == CountLikelihoods(s.grid, s.tickTime, s.tickUpperLimit, s.boostPdf, i)[c];
    }
    EnsembleProbabilityBounded(rows, w, c);
    DotPrefix(w, column, l);
  }

  /** Tick vectors of non-negative beliefs are non-negative. */
  lemma {:induction false} TickVectorNonNegative(s: IntervalSetting, w: seq<real>)
    requires |w| == s.grid.size && NonNegative(w) && IsCountPmf(s.boostPdf)
    ensures NonNegative(TickVector(s, w))
  {
    var rows := TickTable(s.grid, s.tickTime, s.tickUpperLimit, s.boostPdf);
    forall c | 0 <= c < s.tickUpperLimit
      ensures TickVector(s, w)[c] >= 0.0
    {
      var column := Column(rows, c, |w|);
      forall i | 0 <= i < |w|
        ensures 0.0 <= column[i] <= 1.0
      {
        assert rows[i] == TickRow(s.grid, s.tickTime, s.tickUpperLimit, s.boostPdf, i);
        assert column[i] == CountLikelihoods(s.grid, s.tickTime, s.tickUpperLimit, s.boostPdf, i)[c];
      }
      DotBounds(w, column);
    }
  }

  /** Every tick vector of a component's trajectory is non-negative. */
  lemma {:induction false} TickVectorsNonNegative(s: IntervalSetting, w: seq<real>, k: nat)
    requires Spreads(s) && |w| == s.grid.size && NonNegative(w) && Sum(w) > 0.0 && IsCountPmf(s.boostPdf)
    ensures forall t :: 0 <= t < k ==> NonNegative(TickVectors(s, w, k)[t])
  {
    if k > 0 {
      TickVectorsNonNegative(s, w, k - 1);
      var b := Trajectory(s, w, k - 1);
      NormalizedKeepsSigns(b);
      TickVectorNonNegative(s, Normalized(b));
    }
  }

  /** Interval rows are non-negative: each is built by convolving non-negative tick vectors. */
  lemma {:induction false} IntervalRowNonNegative(s: IntervalSetting, i: nat, numTicks: nat)
    requires Spreads(s) && i < s.grid.size && (s.tickUpperLimit >= 1 || numTicks <= 1) && IsCountPmf(s.boostPdf)
    ensures NonNegative(IntervalRow(s, i, numTicks))
  {
    SumOneHot(s.grid.size, i);
    var ticks := TickVectors(s, OneHot(s.grid.size, i), numTicks);
    TickVectorsNonNegative(s, OneHot(s.grid.size, i), numTicks);
    ChainNonNegative(ticks, s.tickUpperLimit);
  }

  /**
   * Over a single tick, component i's interval row is its own one-tick count
   * distribution: entry c is bin i's likelihood of c arrivals.
   */
  lemma {:induction false} IntervalRowOneTick(s: IntervalSetting, i: nat, c: nat)
    requires Spreads(s) && i < s.grid.size && IsCountPmf(s.boostPdf) && c < s.tickUpperLimit
    ensures IntervalRow(s, i, 1)[c] == Likelihood(s.boostPdf, s.grid.FromBinMid(i), s.tickTime, c)
  {
    var start := OneHot(s.grid.size, i);
    SumOneHot(s.grid.size, i);
    NormalizedOfUnit(start);
    var v := TickVector(s, start);
    assert TickVectors(s, start, 1) == [v];
    ChainAppend([], v, s.tickUpperLimit);
    ConvolutionUnit(v);
    TickVectorIsCountProbability(s, start, c);
    CountProbabilityOfCertain(s.grid, i, s.tickTime, c, s.boostPdf);
  }

  /** The collect-tick-forecast loop: normalize, then read the tick forecast for each count below the limit. */
  method CollectTick(component: Process, tick: TickForecast, s: IntervalSetting) returns (thisTick: seq<real>)
    requires component.Valid() && component.pmf.Layout() == s.grid && Sum(component.pmf.weights) != 0.0
    requires tick.countProbability == TickTable(s.grid, s.tickTime, s.tickUpperLimit, s.boostPdf)
    modifies component, component.pmf
    ensures component.Valid() && component.pmf.Layout() == s.grid
    ensures component.brownianMotionRate == old(component.brownianMotionRate)
    ensures s.tickUpperLimit >= 1 ==> component.normalized && component.pmf.weights == Normalized(old(component.pmf.weights))
    ensures s.tickUpperLimit == 0 ==> component.pmf.weights == old(component.pmf.weights)
    ensures thisTick == TickVector(s, Normalized(old(component.pmf.weights)))
  {
    ghost var before := component.pmf.weights;
    ghost var v := TickVector(s, Normalized(before));
    thisTick := [];
    var c := 0;
    while c < s.tickUpperLimit
      invariant 0 <= c <= s.tickUpperLimit
      invariant component.Valid() && component.pmf.Layout() == s.grid
      invariant component.brownianMotionRate == old(component.brownianMotionRate)
      invariant c == 0 ==> component.pmf.weights == before
      invariant c > 0 ==> component.normalized && component.pmf.weights == Normalized(before)
      invariant thisTick == v[..c]
    {
      component.Normalize();
      var p := TickProbability(tick, component, c);
      assert (thisTick + [p])[..c] == thisTick;
      thisTick := thisTick + [p];
      c := c + 1;
    }
    assert thisTick == v;
  }

  /**
   * Component i under setting s: a valid process certain of bin i whose
   * layouts, rates and cached table agree with s.
   */
  ghost predicate ComponentOf(c: Process, s: IntervalSetting, i: nat)
    reads c, c.pmf, c.gaussian, c.gaussian.cdf
  {
    && c.Valid() && c.pmf.Layout() == s.grid && c.gaussian.cdf.Layout() == s.cacheGrid
    && s.zeroEscape == ZeroEscape(s.boostPdf, s.tickTime, c.outageEscapeRate)
    && DeviationFor(s.stddev, c.brownianMotionRate, s.tickTime)
    && (c.gaussian.stddev == s.stddev ==> c.gaussian.cdf.weights == s.table)
    && i < s.grid.size && c.pmf.weights == OneHot(s.grid.size, i)
  }

  /** One component's interval row: each tick, collect the tick vector, convolve it in, evolve. */
  method ComponentRow(component: Process, tick: TickForecast, numTicks: nat, normalCdf: (real, real) -> real,
                      s: IntervalSetting, ghost i: nat) returns (row: seq<real>)
    requires ComponentOf(component, s, i)
    requires Spreads(s) && s.table == CdfTable(s.cacheGrid, normalCdf, s.stddev)
    requires tick.countProbability == TickTable(s.grid, s.tickTime, s.tickUpperLimit, s.boostPdf)
    requires s.tickUpperLimit >= 1 || numTicks <= 1
    modifies component, component.pmf, component.gaussian, component.gaussian.cdf
    ensures row == IntervalRow(s, i, numTicks)
  {
    ghost var start := OneHot(s.grid.size, i);
    SumOneHot(s.grid.size, i);
    ghost var rate := component.brownianMotionRate;
    row := [1.0];
    var t := 0;
    while t < numTicks
      invariant 0 <= t <= numTicks
      invariant component.Valid() && component.pmf.Layout() == s.grid && component.gaussian.cdf.Layout() == s.cacheGrid
      invariant component.brownianMotionRate == rate
      invariant component.gaussian.stddev == s.stddev ==> component.gaussian.cdf.weights == s.table
      invariant component.pmf.weights == Trajectory(s, start, t)
      invariant row == Chain(TickVectors(s, start, t), s.tickUpperLimit)
    {
      ChainStep(s, start, t);
      TrajectoryStep(s, start, t);
      row := AdvanceTick(component, tick, normalCdf, s, row);
      t := t + 1;
    }
  }

  /** One pass of the tick loop: collect the tick vector, convolve it into the row, evolve. */
  method AdvanceTick(component: Process, tick: TickForecast, normalCdf: (real, real) -> real, s: IntervalSetting,
                     row: seq<real>) returns (next: seq<real>)
    requires component.Valid() && component.pmf.Layout() == s.grid && component.gaussian.cdf.Layout() == s.cacheGrid
    requires |s.table| == s.cacheGrid.size && s.table == CdfTable(s.cacheGrid, normalCdf, s.stddev)
    requires s.zeroEscape == ZeroEscape(s.boostPdf, s.tickTime, component.outageEscapeRate)
    requires DeviationFor(s.stddev, component.brownianMotionRate, s.tickTime)
    requires component.gaussian.stddev == s.stddev ==> component.gaussian.cdf.weights == s.table
    requires tick.countProbability == TickTable(s.grid, s.tickTime, s.tickUpperLimit, s.boostPdf)
    requires Sum(component.pmf.weights) != 0.0 && |row| >= 1
    requires s.tickUpperLimit >= 1 || Sum(component.pmf.weights) == 1.0
    modifies component, component.pmf, component.gaussian, component.gaussian.cdf
    ensures component.Valid() && component.pmf.Layout() == s.grid && component.gaussian.cdf.Layout() == s.cacheGrid
    ensures component.brownianMotionRate == old(component.brownianMotionRate)
    ensures component.gaussian.stddev == s.stddev && component.gaussian.cdf.weights == s.table
    ensures component.pmf.weights
            == Diffused(s.grid, s.cacheGrid, s.table, s.stddev, s.zeroEscape, Normalized(old(component.pmf.weights)))
    ensures next == Convolution(row, TickVector(s, Normalized(old(component.pmf.weights))))
  {
    ghost var belief := component.pmf.weights;
    var thisTick := CollectTick(component, tick, s);
    if s.tickUpperLimit == 0 {
      NormalizedOfUnit(belief);
    }
    next := Convolve(row, thisTick);
    component.Evolve(s.tickTime, s.stddev, normalCdf, s.boostPdf);
  }

  /** One tick of a component's belief: normalize, then diffuse. */
  lemma {:induction false} TrajectoryStep(s: IntervalSetting, w: seq<real>, t: nat)
    requires Spreads(s) && |w| == s.grid.size && NonNegative(w) && Sum(w) > 0.0
    ensures Trajectory(s, w, t + 1)
            == Diffused(s.grid, s.cacheGrid, s.table, s.stddev, s.zeroEscape, Normalized(Trajectory(s, w, t)))
  {
  }

  /** One tick of an interval row: convolve in the tick vector of the normalized belief. */
  lemma {:induction false} ChainStep(s: IntervalSetting, w: seq<real>, t: nat)
    requires Spreads(s) && |w| == s.grid.size && NonNegative(w) && Sum(w) > 0.0
    requires s.tickUpperLimit >= 1 || t == 0
    ensures Chain(TickVectors(s, w, t + 1), s.tickUpperLimit)
            == Convolution(Chain(TickVectors(s, w, t), s.tickUpperLimit), TickVector(s, Normalized(Trajectory(s, w, t))))
  {
    ChainAppend(TickVectors(s, w, t), TickVector(s, Normalized(Trajectory(s, w, t))), s.tickUpperLimit);
  }

  /** Appending a tick convolves it into the chain. */
  lemma {:induction false} ChainAppend(ticks: seq<seq<real>>, v: seq<real>, width: nat)
    requires Rectangular(ticks, width) && |v| == width && (width >= 1 || ticks == [])
    ensures Chain(ticks + [v], width) == Convolution(Chain(ticks, width), v)
  {
    assert (ticks + [v])[..|ticks|] == ticks;
  }

  /**
   * The ProcessForecastInterval constructor: the tick forecast, then one
   * interval row per component.
   */
  method MakeIntervalForecast(tickTime: real, example: Process, tickUpperLimit: nat, numTicks: nat, stddev: real,
                              normalCdf: (real, real) -> real, boostPdf: (real, nat) -> real)
    returns (f: IntervalForecast)
    requires example.Valid()
    requires Spreads(SettingOf(example, tickTime, tickUpperLimit, stddev, normalCdf, boostPdf))
    requires DeviationFor(stddev, example.brownianMotionRate, tickTime)
    requires example.gaussian.stddev == stddev ==>
               example.gaussian.cdf.weights == CdfTable(example.gaussian.cdf.Layout(), normalCdf, stddev)
    requires tickUpperLimit >= 1 || numTicks <= 1
    ensures f.countProbability
            == IntervalTable(old(SettingOf(example, tickTime, tickUpperLimit, stddev, normalCdf, boostPdf)), numTicks)
  {
    var components := MakeComponents(example);
    var tick := MakeTickForecast(tickTime, example, tickUpperLimit, boostPdf);
    var s := SettingOf(example, tickTime, tickUpperLimit, stddev, normalCdf, boostPdf);
    CertainAreComponents(components, example, s, normalCdf);
    var rows := ComponentRows(components, tick, numTicks, normalCdf, s);
    f := IntervalForecast(rows);
  }

  /** The components make_components returns are the components of the example's setting. */
  lemma {:induction false} CertainAreComponents(components: seq<Process>, example: Process, s: IntervalSetting,
                                                normalCdf: (real, real) -> real)
    requires example.Valid() && |components| == s.grid.size
    requires forall k :: 0 <= k < |components| ==> CertainComponent(components[k], example, k)
    requires s == SettingOf(example, s.tickTime, s.tickUpperLimit, s.stddev, normalCdf, s.boostPdf)
    requires DeviationFor(s.stddev, example.brownianMotionRate, s.tickTime)
    requires example.gaussian.stddev == s.stddev ==> example.gaussian.cdf.weights == s.table
    ensures forall k :: 0 <= k < |components| ==> ComponentOf(components[k], s, k)
  {
    forall k | 0 <= k < |components|
      ensures ComponentOf(components[k], s, k)
    {
      assert CertainComponent(components[k], example, k);
    }
  }

  /** The constructor's loop over the components, one interval row each. */
  method ComponentRows(components: seq<Process>, tick: TickForecast, numTicks: nat, normalCdf: (real, real) -> real,
                       s: IntervalSetting) returns (rows: seq<seq<real>>)
    requires Spreads(s) && s.table == CdfTable(s.cacheGrid, normalCdf, s.stddev)
    requires tick.countProbability == TickTable(s.grid, s.tickTime, s.tickUpperLimit, s.boostPdf)
    requires s.tickUpperLimit >= 1 || numTicks <= 1
    requires |components| == s.grid.size
    requires forall k :: 0 <= k < |components| ==> ComponentOf(components[k], s, k)
    requires forall k, l :: 0 <= k < l < |components| ==> components[k].Repr() !! components[l].Repr()
    modifies set k | 0 <= k < |components| :: components[k]
    modifies set k | 0 <= k < |components| :: components[k].pmf
    modifies set k | 0 <= k < |components| :: components[k].gaussian
    modifies set k | 0 <= k < |components| :: components[k].gaussian.cdf
    ensures rows == IntervalTable(s, numTicks)
  {
    rows := [];
    var i := 0;
    while i < |components|
      invariant 0 <= i <= |components|
      invariant rows == IntervalRows(s, numTicks, i)
      invariant forall k :: i <= k < |components| ==> ComponentOf(components[k], s, k)
    {
      var row := ComponentRow(components[i], tick, numTicks, normalCdf, s, i);
      IntervalRowsStep(s, numTicks, i, rows, row);
      rows := rows + [row];
      i := i + 1;
    }
  }

  /**
   * ProcessForecastInterval::probability. The source repeats the body of
   * ProcessForecastTick::probability here, so this mirrors TickProbability.
   */
  method IntervalProbability(f: IntervalForecast, ensemble: Process, count: nat) returns (r: real)
    requires ensemble.Valid() && ensemble.normalized
    requires |ensemble.pmf.weights| == |f.countProbability| > 0
    requires Rectangular(f.countProbability, |f.countProbability[0]|) && count < |f.countProbability[0]|
    ensures r == EnsembleProbability(f.countProbability, ensemble.pmf.weights, count)
  {
    r := ensemble.pmf.Summation(f.countProbability, count);
    if r > 1.0 {
      r := 1.0;
    }
  }

  /** The ensemble's count probabilities, one per column of the interval table. */
  function CountDistribution(rows: seq<seq<real>>, w: seq<real>): (d: seq<real>)
    requires |rows| > 0 && |w| == |rows| && Rectangular(rows, |rows[0]|)
    ensures |d| == |rows[0]|
  {
    seq(|rows[0]|, c requires 0 <= c < |rows[0]| => EnsembleProbability(rows, w, c))
  }

  /** lower_quantile's answer: the first count whose cumulative probability reaches x, else width + 1. */
  function QuantileCount(d: seq<real>, x: real): nat
  {
    var k := FirstReaching(d, x);
    if k < |d| then k else |d| + 1
  }

  /** ProcessForecastInterval::lower_quantile: the cumulative walk over counts. */
  method IntervalLowerQuantile(f: IntervalForecast, ensemble: Process, x: real) returns (r: nat)
    requires ensemble.Valid() && ensemble.normalized
    requires |ensemble.pmf.weights| == |f.countProbability| > 0
    requires Rectangular(f.countProbability, |f.countProbability[0]|)
    ensures r == QuantileCount(CountDistribution(f.countProbability, ensemble.pmf.weights), x)
  {
    ghost var d := CountDistribution(f.countProbability, ensemble.pmf.weights);
    var width := |f.countProbability[0]|;
    var sum := 0.0;
    var i := 0;
    while i < width
      invariant 0 <= i <= width
      invariant sum == Sum(d[..i])
      invariant FirstReachingFrom(d, x, i) == FirstReaching(d, x)
    {
      var p := IntervalProbability(f, ensemble, i);
      assert d[..i + 1][..i] == d[..i];
      sum := sum + p;
      if sum >= x {
        return i;
      }
      i := i + 1;
    }
    return width + 1;
  }

  /**
   * The quantile count is non-decreasing in its target, and a count it
   * returns below the width has cumulative probability at least x while every
   * smaller count stays below x.
   */
  lemma {:induction false} QuantileCountMonotone(d: seq<real>, x: real, y: real)
    requires x <= y
    ensures QuantileCount(d, x) <= QuantileCount(d, y)
    ensures QuantileCount(d, x) < |d| ==>
              Cumulative(d, QuantileCount(d, x)) >= x
              && forall j :: 0 <= j < QuantileCount(d, x) ==> Cumulative(d, j) < x
  {
    FirstReachingMonotone(d, x, y);
  }
}
