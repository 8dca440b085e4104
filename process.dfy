/**
 * Process: a Bayesian belief over a hidden arrival rate, held as a
 * SampledFunction over [0, maximum rate].  The Poisson pmf (boost's) and the
 * normal CDF (boost's) are library calls and enter as function parameters.
 */
module Processes {
  import opened Sums
  import opened SampledFunctions

  /** boost's Poisson pmf, taken as any function into [0, 1]. */
  ghost predicate IsCountPmf(pdf: (real, nat) -> real)
  {
    forall rate: real, k: nat :: 0.0 <= pdf(rate, k) <= 1.0
  }

  /** poissonpdf: rate 0 is pinned (probability 1 for no arrivals, else 0); other rates ask the library. */
  function PoissonPdf(boostPdf: (real, nat) -> real, rate: real, counts: nat): real
  {
    if rate == 0.0 then (if counts == 0 then 1.0 else 0.0) else boostPdf(rate, counts)
  }

  /** The likelihood of `counts` arrivals in `time` at a given rate. */
  function Likelihood(boostPdf: (real, nat) -> real, rate: real, time: real, counts: nat): real
  {
    PoissonPdf(boostPdf, rate * time, counts)
  }

  /** The likelihood of `counts` arrivals in `time` for every bin, at the bin's representative rate. */
  function Likelihoods(g: Grid, time: real, counts: nat, boostPdf: (real, nat) -> real): (l: seq<real>)
    ensures |l| == g.size
  {
    seq(g.size, i requires 0 <= i => Likelihood(boostPdf, g.FromBinMid(i), time, counts))
  }

  /** One bin's weight after `observe`: the prior weight times the bin's likelihood. */
  function Weigh(boostPdf: (real, nat) -> real, value: real, rate: real, time: real, counts: nat): real
  {
    value * Likelihood(boostPdf, rate, time, counts)
  }

  /** The belief after `observe`: each weight times its bin's likelihood. */
  function Observed(g: Grid, w: seq<real>, time: real, counts: nat, boostPdf: (real, nat) -> real): (r: seq<real>)
    requires |w| == g.size
    ensures |r| == |w|
  {
    seq(|w|, i requires 0 <= i < |w| => Weigh(boostPdf, w[i], g.FromBinMid(i), time, counts))
  }

  /** The belief after `normalize` from an unnormalized state: every weight divided by the total. */
  function Normalized(w: seq<real>): (r: seq<real>)
    requires Sum(w) != 0.0
    ensures |r| == |w|
  {
    seq(|w|, i requires 0 <= i < |w| => w[i] / Sum(w))
  }

  /** The cached CDF table: the normal CDF with deviation s at every bin midpoint of the cache's grid. */
  function CdfTable(g: Grid, normalCdf: (real, real) -> real, s: real): (t: seq<real>)
    ensures |t| == g.size
  {
    seq(g.size, i requires 0 <= i => normalCdf(s, g.FromBinMid(i)))
  }

  /** The outage-bin factor of evolve: mass leaving bin 0 escapes with probability z, and stays with 1 - z. */
  function ZFactor(zeroEscape: real, oldIndex: nat, newIndex: nat): real
  {
    if oldIndex == 0 then (if newIndex != 0 then zeroEscape else 1.0 - zeroEscape) else 1.0
  }

  /** Bins reached from bin i: for_range over i's midpoint plus and minus five deviations. */
  predicate InWindow(g: Grid, stddev: real, i: nat, j: nat)
    requires g.Valid()
  {
    var rate := g.FromBinMid(i);
    RangeLow(g, rate - 5.0 * stddev) <= j <= RangeHigh(g, rate + 5.0 * stddev)
  }

  /** The CDF looked up through the cache's own histogram (GaussianCache::cdf). */
  function CdfAt(cg: Grid, table: seq<real>, x: real): real
    requires cg.Valid() && |table| == cg.size
  {
    table[cg.ToBin(x)]
  }

  /** The Gaussian step's chance of moving oldRate into newRate's bin, read from the cached table. */
  function BinMass(g: Grid, cg: Grid, table: seq<real>, oldRate: real, newRate: real): real
    requires g.Valid() && cg.Valid() && |table| == cg.size
  {
    CdfAt(cg, table, g.SampleCeil(newRate) - oldRate) - CdfAt(cg, table, g.SampleFloor(newRate) - oldRate)
  }

  /** The mass that old bin i (weight p) sends to new bin j, whose rate is newRate. */
  function Contribution(g: Grid, cg: Grid, table: seq<real>, zeroEscape: real, i: nat, p: real,
                        newRate: real, j: nat): real
    requires g.Valid() && cg.Valid() && |table| == cg.size
  {
    ZFactor(zeroEscape, i, j) * p * BinMass(g, cg, table, g.FromBinMid(i), newRate)
  }

  /** What new bin j has received from old bins 0..n-1. */
  function Received(g: Grid, cg: Grid, table: seq<real>, stddev: real, zeroEscape: real,
                    w: seq<real>, j: nat, n: nat): real
    requires g.Valid() && cg.Valid() && |table| == cg.size && n <= |w|
  {
    if n == 0 then 0.0
    else Received(g, cg, table, stddev, zeroEscape, w, j, n - 1)
         + (if InWindow(g, stddev, n - 1, j) then Contribution(g, cg, table, zeroEscape, n - 1, w[n - 1], g.FromBinMid(j), j) else 0.0)
  }

  /** The belief after `evolve`'s diffusion step. */
  function Diffused(g: Grid, cg: Grid, table: seq<real>, stddev: real, zeroEscape: real, w: seq<real>): (r: seq<real>)
    requires g.Valid() && cg.Valid() && |table| == cg.size && |w| == g.size
    ensures |r| == |w|
  {
    seq(|w|, j requires 0 <= j => Received(g, cg, table, stddev, zeroEscape, w, j, |w|))
  }

  /** evolve's escape probability from the outage bin over `time`. */
  function ZeroEscape(boostPdf: (real, nat) -> real, time: real, outageEscapeRate: real): real
  {
    1.0 - PoissonPdf(boostPdf, time * outageEscapeRate, 0)
  }

  /** stddev is the diffusion's deviation over `time`: rate * sqrt(time), stated without the square root. */
  predicate DeviationFor(stddev: real, rate: real, time: real)
  {
    stddev >= 0.0 && stddev * stddev == rate * rate * time
  }

  /** GaussianCache: a CDF table over [-maximum rate, maximum rate], recomputed only for a new deviation. */
  class GaussianCache {
    const cdf: SampledFunction
    var stddev: real

    ghost predicate Valid()
      reads this, cdf
    {
      cdf.Valid()
    }

    constructor (maximumRate: real, bins: int)
      requires bins > 0 && maximumRate > 0.0
      ensures Valid() && fresh(cdf)
      ensures stddev == -1.0
      ensures cdf.Layout() == Grid(-maximumRate, (maximumRate - -maximumRate) / bins as real, bins + 1)
    {
      cdf := new SampledFunction(bins, maximumRate, -maximumRate);
      stddev := -1.0;
    }

    constructor Copy(other: GaussianCache)
      requires other.Valid()
      ensures Valid() && fresh(cdf)
      ensures stddev == other.stddev
      ensures cdf.Layout() == other.cdf.Layout() && cdf.weights == other.cdf.weights
    {
      cdf := new SampledFunction.Copy(other.cdf);
      stddev := other.stddev;
    }

    /** calculate: a no-op for the cached deviation, otherwise the table for the new one. */
    method Calculate(s: real, normalCdf: (real, real) -> real)
      requires Valid()
      modifies this, cdf
      ensures Valid() && cdf.Layout() == old(cdf.Layout())
      ensures stddev == s
      ensures old(stddev) == s ==> cdf.weights == old(cdf.weights)
      ensures old(stddev) != s ==> cdf.weights == CdfTable(cdf.Layout(), normalCdf, s)
    {
      if s == stddev {
        return;
      }
      stddev := s;
      cdf.ForEach((x: real, value: real, index: nat) => normalCdf(s, x));
      assert cdf.weights == CdfTable(cdf.Layout(), normalCdf, s);
    }

    /** The implicit operator=: the table (same grid required) and the cached deviation. */
    method Assign(other: GaussianCache)
      requires Valid() && other.Valid()
      requires cdf.offset == other.cdf.offset && cdf.binWidth == other.cdf.binWidth
      modifies this, cdf
      ensures Valid() && cdf.weights == old(other.cdf.weights) && stddev == old(other.stddev)
    {
      var s := other.stddev;
      ghost var w := other.cdf.weights;
      cdf.Assign(other.cdf);
      assert cdf.weights == w;
      stddev := s;
    }
  }

  /** A normal CDF that is non-decreasing in x gives a non-decreasing table. */
  lemma {:induction false} CdfTableMonotone(g: Grid, normalCdf: (real, real) -> real, s: real, a: nat, b: nat)
    requires g.Valid() && a <= b < g.size
    requires forall x: real, y: real :: x <= y ==> normalCdf(s, x) <= normalCdf(s, y)
    ensures CdfTable(g, normalCdf, s)[a] <= CdfTable(g, normalCdf, s)[b]
  {
    if a < b {
      MidMonotone(g, a, b);
    }
  }

  class Process {
    const pmf: SampledFunction
    const gaussian: GaussianCache
    var brownianMotionRate: real
    const outageEscapeRate: real
    var normalized: bool

    /** The objects a process owns; it reads only const fields, so it never changes. */
    ghost function Repr(): set<object>
    {
      {this, pmf, gaussian, gaussian.cdf}
    }

    /** The belief lives on [0, ...) with bin 0 the zero rate, and the flag means "sums to 1". */
    ghost predicate Valid()
      reads this, pmf, gaussian, gaussian.cdf
    {
      && pmf.Valid() && gaussian.Valid()
      && pmf != gaussian.cdf
      && pmf.offset == 0.0
      && (normalized ==> Sum(pmf.weights) == 1.0)
    }

    /** A uniform prior over bins+1 rate bins up to maximumRate, normalized. */
    constructor (maximumRate: real, sBrownianMotionRate: real, sOutageEscapeRate: real, bins: int)
      requires bins > 0 && maximumRate > 0.0
      ensures Valid() && fresh(pmf) && fresh(gaussian) && fresh(gaussian.cdf)
      ensures normalized
      ensures pmf.Layout() == Grid(0.0, maximumRate / bins as real, bins + 1)
      ensures pmf.weights == seq(bins + 1, _ => 1.0 / (bins + 1) as real)
      ensures brownianMotionRate == sBrownianMotionRate && outageEscapeRate == sOutageEscapeRate
      ensures gaussian.stddev == -1.0
      ensures gaussian.cdf.Layout() == Grid(-maximumRate, (maximumRate - -maximumRate) / (bins * 128) as real, bins * 128 + 1)
    {
      pmf := new SampledFunction(bins, maximumRate, 0.0);
      gaussian := new GaussianCache(maximumRate, bins * 128);
      brownianMotionRate := sBrownianMotionRate;
      outageEscapeRate := sOutageEscapeRate;
      normalized := false;
      new;
      ghost var uniform := seq(bins + 1, _ => 1.0);
      assert pmf.weights == uniform;
      assert gaussian.stddev == -1.0;
      NormalizedUniform(bins + 1);
      Normalize();
      assert gaussian.stddev == -1.0;
      assert pmf.weights == Normalized(uniform);
    }

    /** The copy constructor: an independent process in the same state. */
    constructor Copy(other: Process)
      requires other.Valid()
      ensures Valid() && fresh(pmf) && fresh(gaussian) && fresh(gaussian.cdf)
      ensures pmf.Layout() == other.pmf.Layout() && pmf.weights == other.pmf.weights
      ensures gaussian.cdf.Layout() == other.gaussian.cdf.Layout()
      ensures gaussian.cdf.weights == other.gaussian.cdf.weights && gaussian.stddev == other.gaussian.stddev
      ensures normalized == other.normalized
      ensures brownianMotionRate == other.brownianMotionRate && outageEscapeRate == other.outageEscapeRate
    {
      pmf := new SampledFunction.Copy(other.pmf);
      gaussian := new GaussianCache.Copy(other.gaussian);
      brownianMotionRate := other.brownianMotionRate;
      outageEscapeRate := other.outageEscapeRate;
      normalized := other.normalized;
    }

    /** observe: multiply by the likelihood of `counts` arrivals in `time`; clears the flag. */
    method Observe(time: real, counts: nat, boostPdf: (real, nat) -> real)
      requires Valid()
      modifies this, pmf
      ensures Valid() && !normalized && pmf.Layout() == old(pmf.Layout())
      ensures brownianMotionRate == old(brownianMotionRate)
      ensures pmf.weights == Observed(pmf.Layout(), old(pmf.weights), time, counts, boostPdf)
    {
      normalized := false;
      ghost var before := pmf.weights;
      pmf.ForEach((midpoint: real, value: real, index: nat) => Weigh(boostPdf, value, midpoint, time, counts));
      assert pmf.weights == Observed(pmf.Layout(), before, time, counts, boostPdf);
    }

    /** normalize: a no-op when the flag is set, otherwise divide by the total and set it. */
    method Normalize()
      requires Valid() && (normalized || Sum(pmf.weights) != 0.0)
      modifies this, pmf
      ensures Valid() && normalized && pmf.Layout() == old(pmf.Layout())
      ensures brownianMotionRate == old(brownianMotionRate)
      ensures old(normalized) ==> pmf.weights == old(pmf.weights)
      ensures Sum(old(pmf.weights)) != 0.0 && pmf.weights == Normalized(old(pmf.weights))
    {
      if normalized {
        NormalizedOfUnit(pmf.weights);
        return;
      }
      var addValue := (acc: real, midpoint: real, value: real, index: nat) => acc + value;
      var sum := pmf.Accumulate(0.0, addValue);
      FoldIsSum(pmf, addValue, |pmf.weights|);
      assert pmf.weights[..|pmf.weights|] == pmf.weights;
      ghost var before := pmf.weights;
      pmf.ForEach((midpoint: real, value: real, index: nat) => value / sum);
      assert pmf.weights == Normalized(before);
      assert sum == Sum(before) != 0.0;
      assert Normalized(before) == seq(|before|, i requires 0 <= i < |before| => before[i] / sum);
      SumDivide(before, sum);
      DivideSelf(sum);
      normalized := true;
    }

    /** set_certain: all mass on the bin holding `rate`, then normalized. */
    method SetCertain(rate: real)
      requires Valid()
      modifies this, pmf
      ensures Valid() && normalized && pmf.Layout() == old(pmf.Layout())
      ensures brownianMotionRate == old(brownianMotionRate)
      ensures pmf.weights == OneHot(|pmf.weights|, pmf.Index(rate))
      ensures pmf.At(rate) == 1.0
    {
      normalized := false;
      var indexToHit := pmf.Index(rate);
      pmf.ForEach((midpoint: real, value: real, index: nat) => if index == indexToHit then 1.0 else 0.0);
      assert pmf.weights == OneHot(|pmf.weights|, indexToHit);
      SumOneHot(|pmf.weights|, indexToHit);
      Normalize();
      NormalizedOfUnit(OneHot(|pmf.weights|, indexToHit));
    }

    /** evolve: Gaussian diffusion of the rate, with the outage bin's escape factor; clears the flag. */
    method Evolve(time: real, stddev: real, normalCdf: (real, real) -> real, boostPdf: (real, nat) -> real)
      requires Valid()
      requires DeviationFor(stddev, brownianMotionRate, time)
      modifies this, pmf, gaussian, gaussian.cdf
      ensures Valid() && !normalized && pmf.Layout() == old(pmf.Layout())
      ensures brownianMotionRate == old(brownianMotionRate)
      ensures gaussian.cdf.Layout() == old(gaussian.cdf.Layout()) && gaussian.stddev == stddev
      ensures old(gaussian.stddev) == stddev ==> gaussian.cdf.weights == old(gaussian.cdf.weights)
      ensures old(gaussian.stddev) != stddev ==>
                gaussian.cdf.weights == CdfTable(gaussian.cdf.Layout(), normalCdf, stddev)
      ensures pmf.weights == Diffused(pmf.Layout(), gaussian.cdf.Layout(), gaussian.cdf.weights, stddev,
                                      ZeroEscape(boostPdf, time, outageEscapeRate), old(pmf.weights))
    {
      normalized := false;
      gaussian.Calculate(stddev, normalCdf);
      var newPmf := new SampledFunction.Copy(pmf);
      newPmf.ForEach((midpoint: real, value: real, index: nat) => 0.0);
      var zeroEscapeProbability := ZeroEscape(boostPdf, time, outageEscapeRate);
      var g := pmf.Layout();
      var cg := gaussian.cdf.Layout();
      var table := gaussian.cdf.weights;
      var w := pmf.weights;
      Spread(newPmf, g, cg, table, stddev, zeroEscapeProbability, w);
      pmf.Assign(newPmf);
    }

    /** count_probability: the chance of `counts` arrivals in `time` under the current belief, unchanged by the call. */
    method CountProbability(time: real, counts: nat, boostPdf: (real, nat) -> real) returns (r: real)
      requires Valid()
      ensures r == Dot(pmf.weights, Likelihoods(pmf.Layout(), time, counts, boostPdf))
    {
      var addTerm := (acc: real, rate: real, rateProbability: real, index: nat) =>
                       AddLikelihood(boostPdf, time, counts, acc, rate, rateProbability);
      r := pmf.Accumulate(0.0, addTerm);
      LikelihoodFoldIsDot(pmf, boostPdf, time, counts, addTerm);
    }

    /**
     * operator=: copies belief, cache, flag and diffusion rate from `other`;
     * the outage escape rate stays this process's own.
     */
    method Assign(other: Process)
      requires Valid() && other.Valid()
      requires other == this || Repr() !! other.Repr()
      requires pmf.offset == other.pmf.offset && pmf.binWidth == other.pmf.binWidth
      requires gaussian.cdf.offset == other.gaussian.cdf.offset
      requires gaussian.cdf.binWidth == other.gaussian.cdf.binWidth
      modifies this, pmf, gaussian, gaussian.cdf
      ensures Valid()
      ensures pmf.weights == old(other.pmf.weights) && normalized == old(other.normalized)
      ensures gaussian.cdf.weights == old(other.gaussian.cdf.weights) && gaussian.stddev == old(other.gaussian.stddev)
      ensures brownianMotionRate == old(other.brownianMotionRate)
    {
      var flag, rate := other.normalized, other.brownianMotionRate;
      pmf.Assign(other.pmf);
      gaussian.Assign(other.gaussian);
      normalized := flag;
      brownianMotionRate := rate;
    }
  }

  /**
   * The accumulation loop of evolve: every old bin, in order, adds its
   * contribution to each new bin of its for_range window around its rate.
   */
  method Spread(target: SampledFunction, g: Grid, cg: Grid, table: seq<real>, stddev: real,
                zeroEscapeProbability: real, w: seq<real>)
    requires target.Valid() && target.Layout() == g && cg.Valid() && |table| == cg.size && |w| == g.size
    requires forall j :: 0 <= j < |w| ==> target.weights[j] == 0.0
    modifies target
    ensures target.Valid() && target.Layout() == g
    ensures target.weights == Diffused(g, cg, table, stddev, zeroEscapeProbability, w)
  {
    var oldIndex: nat := 0;
    while oldIndex < |w|
      invariant 0 <= oldIndex <= |w|
      invariant target.Valid() && target.Layout() == g
      invariant forall j :: 0 <= j < |w| ==>
                  target.weights[j] == Received(g, cg, table, stddev, zeroEscapeProbability, w, j, oldIndex)
    {
      SpreadBin(target, g, cg, table, stddev, zeroEscapeProbability, w, oldIndex);
      oldIndex := oldIndex + 1;
    }
    assert target.weights == Diffused(g, cg, table, stddev, zeroEscapeProbability, w);
  }

  /** One pass of evolve's outer loop: bin oldIndex hands its mass to the bins within five deviations. */
  method SpreadBin(target: SampledFunction, g: Grid, cg: Grid, table: seq<real>, stddev: real,
                   zeroEscapeProbability: real, w: seq<real>, oldIndex: nat)
    requires target.Valid() && target.Layout() == g && cg.Valid() && |table| == cg.size && oldIndex < |w| == g.size
    requires forall j :: 0 <= j < |w| ==>
               target.weights[j] == Received(g, cg, table, stddev, zeroEscapeProbability, w, j, oldIndex)
    modifies target
    ensures target.Valid() && target.Layout() == g
    ensures forall j :: 0 <= j < |w| ==>
              target.weights[j] == Received(g, cg, table, stddev, zeroEscapeProbability, w, j, oldIndex + 1)
  {
    var oldRate := g.FromBinMid(oldIndex);
    var oldProb := w[oldIndex];
    target.ForRange(oldRate - 5.0 * stddev, oldRate + 5.0 * stddev,
                    (newRate: real, newProb: real, newIndex: nat) =>
                      newProb + Contribution(g, cg, table, zeroEscapeProbability, oldIndex, oldProb, newRate, newIndex));
  }

  /** Folding "acc + value" over the bins is the plain sum of the weights. */
  lemma {:induction false} FoldIsSum(f: SampledFunction, add: (real, real, real, nat) -> real, n: nat)
    requires n <= |f.weights|
    requires forall acc: real, m: real, v: real, i: nat :: add(acc, m, v, i) == acc + v
    ensures f.FoldBins(0.0, add, n) == Sum(f.weights[..n])
  {
    if n > 0 {
      FoldIsSum(f, add, n - 1);
      assert f.weights[..n][..n - 1] == f.weights[..n - 1];
    }
  }

  /** One step of count_probability's accumulation: the running total plus this bin's weighted likelihood. */
  function AddLikelihood(boostPdf: (real, nat) -> real, time: real, counts: nat, acc: real, rate: real,
                         rateProbability: real): real
  {
    acc + rateProbability * Likelihood(boostPdf, rate, time, counts)
  }

  /** Accumulating AddLikelihood over every bin is the dot product with the likelihood table. */
  lemma {:induction false} LikelihoodFoldIsDot(f: SampledFunction, boostPdf: (real, nat) -> real, time: real,
                                               counts: nat, add: (real, real, real, nat) -> real)
    requires f.Valid()
    requires forall acc: real, m: real, v: real, i: nat :: add(acc, m, v, i) == AddLikelihood(boostPdf, time, counts, acc, m, v)
    ensures f.FoldBins(0.0, add, |f.weights|) == Dot(f.weights, Likelihoods(f.Layout(), time, counts, boostPdf))
  {
    var l := Likelihoods(f.Layout(), time, counts, boostPdf);
    forall acc: real, m: real, v: real, i: nat | i < |f.weights| && m == f.Layout().FromBinMid(i)
      ensures add(acc, m, v, i) == acc + v * l[i]
    {
      assert l[i] == Likelihood(boostPdf, m, time, counts);
    }
    FoldIsDot(f, add, l, |f.weights|);
    assert f.weights[..|f.weights|] == f.weights;
  }

  /** Folding "acc + value * l[i]" over the bins is the weights' dot product with l. */
  lemma {:induction false} FoldIsDot(f: SampledFunction, add: (real, real, real, nat) -> real, l: seq<real>, n: nat)
    requires n <= |f.weights| && |f.weights| <= |l|
    requires forall acc: real, m: real, v: real, i: nat :: i < |f.weights| && m == f.Layout().FromBinMid(i) ==> add(acc, m, v, i) == acc + v * l[i]
    ensures f.FoldBins(0.0, add, n) == Dot(f.weights[..n], l)
  {
    if n > 0 {
      FoldIsDot(f, add, l, n - 1);
      assert f.weights[..n][..n - 1] == f.weights[..n - 1];
    }
  }

  /** The uniform prior: n equal weights normalize to 1/n each. */
  lemma {:induction false} NormalizedUniform(n: nat)
    requires n > 0
    ensures Sum(seq(n, _ => 1.0)) != 0.0
    ensures Normalized(seq(n, _ => 1.0)) == seq(n, _ => 1.0 / n as real)
  {
    SumConstant(n, 1.0);
  }

  /** A belief that already sums to 1 is its own normalization. */
  lemma {:induction false} NormalizedOfUnit(w: seq<real>)
    requires Sum(w) == 1.0
    ensures Normalized(w) == w
  {
  }

  /** normalize is idempotent: the normalized belief sums to 1 and normalizing it again changes nothing. */
  lemma {:induction false} NormalizeIdempotent(w: seq<real>)
    requires Sum(w) != 0.0
    ensures Sum(Normalized(w)) == 1.0
    ensures Normalized(Normalized(w)) == Normalized(w)
  {
    SumDivide(w, Sum(w));
    assert Sum(Normalized(w)) == Sum(w) / Sum(w) == 1.0;
    NormalizedOfUnit(Normalized(w));
  }

  /**
   * With observed arrivals, the outage bin is ruled out: on a grid starting at
   * rate 0, bin 0's rate is 0 and its likelihood of any positive count is 0.
   */
  lemma {:induction false} ObserveZeroesOutageBin(g: Grid, w: seq<real>, time: real, counts: nat, boostPdf: (real, nat) -> real)
    requires g.Valid() && g.offset == 0.0 && |w| == g.size && counts > 0
    ensures Observed(g, w, time, counts, boostPdf)[0] == 0.0
  {
  }

  /** Observation keeps a non-negative belief non-negative. */
  lemma {:induction false} ObservePreservesNonNegative(g: Grid, w: seq<real>, time: real, counts: nat, boostPdf: (real, nat) -> real)
    requires |w| == g.size && NonNegative(w) && IsCountPmf(boostPdf)
    ensures NonNegative(Observed(g, w, time, counts, boostPdf))
  {
    var o := Observed(g, w, time, counts, boostPdf);
    forall i | 0 <= i < |w|
      ensures o[i] >= 0.0
    {
      var l := Likelihood(boostPdf, g.FromBinMid(i), time, counts);
      assert 0.0 <= l;
      assert o[i] == Weigh(boostPdf, w[i], g.FromBinMid(i), time, counts) == w[i] * l;
    }
  }

  /** Under a normalized non-negative belief, count_probability is a probability. */
  lemma {:induction false} CountProbabilityBounded(g: Grid, w: seq<real>, time: real, counts: nat, boostPdf: (real, nat) -> real)
    requires |w| == g.size && NonNegative(w) && Sum(w) == 1.0 && IsCountPmf(boostPdf)
    ensures 0.0 <= Dot(w, Likelihoods(g, time, counts, boostPdf)) <= 1.0
  {
    var l := Likelihoods(g, time, counts, boostPdf);
    forall i | 0 <= i < |w|
      ensures 0.0 <= l[i] <= 1.0
    {
      assert l[i] == Likelihood(boostPdf, g.FromBinMid(i), time, counts);
    }
    DotBounds(w, l);
  }

  /** For a certain belief at bin k, count_probability is bin k's own likelihood. */
  lemma {:induction false} CountProbabilityOfCertain(g: Grid, k: nat, time: real, counts: nat, boostPdf: (real, nat) -> real)
    requires k < g.size
    ensures Dot(OneHot(g.size, k), Likelihoods(g, time, counts, boostPdf))
            == Likelihood(boostPdf, g.FromBinMid(k), time, counts)
  {
    DotOneHot(g.size, k, Likelihoods(g, time, counts, boostPdf));
    assert Likelihoods(g, time, counts, boostPdf)[k] == Likelihood(boostPdf, g.FromBinMid(k), time, counts);
  }

  /** With a non-decreasing table, the mass moved into a bin is never negative. */
  lemma {:induction false} BinMassNonNegative(g: Grid, cg: Grid, table: seq<real>, oldRate: real, j: nat)
    requires g.Valid() && g.WithinBig() && cg.Valid() && |table| == cg.size && j < g.size
    requires forall a: nat, b: nat :: a <= b < |table| ==> table[a] <= table[b]
    ensures BinMass(g, cg, table, oldRate, g.FromBinMid(j)) >= 0.0
  {
    var newRate := g.FromBinMid(j);
    FloorBelowCeil(g, g.ToBin(newRate));
    ToBinMonotone(cg, g.SampleFloor(newRate) - oldRate, g.SampleCeil(newRate) - oldRate);
  }

  /** One old bin's contribution to one new bin is never negative. */
  lemma {:induction false} ContributionNonNegative(g: Grid, cg: Grid, table: seq<real>, z: real, i: nat, p: real, j: nat)
    requires g.Valid() && g.WithinBig() && cg.Valid() && |table| == cg.size && j < g.size
    requires p >= 0.0 && 0.0 <= z <= 1.0
    requires forall a: nat, b: nat :: a <= b < |table| ==> table[a] <= table[b]
    ensures Contribution(g, cg, table, z, i, p, g.FromBinMid(j), j) >= 0.0
  {
    BinMassNonNegative(g, cg, table, g.FromBinMid(i), j);
    var f := ZFactor(z, i, j);
    var m := BinMass(g, cg, table, g.FromBinMid(i), g.FromBinMid(j));
    ProductNonNegative(f, p, m);
  }

  lemma {:induction false} ProductNonNegative(a: real, b: real, c: real)
    requires a >= 0.0 && b >= 0.0 && c >= 0.0
    ensures a * b * c >= 0.0
  {
    assert a * b >= 0.0;
  }

  lemma {:induction false} ReceivedNonNegative(g: Grid, cg: Grid, table: seq<real>, stddev: real, z: real,
                                               w: seq<real>, j: nat, n: nat)
    requires g.Valid() && g.WithinBig() && cg.Valid() && |table| == cg.size && n <= |w| && j < g.size
    requires NonNegative(w) && 0.0 <= z <= 1.0
    requires forall a: nat, b: nat :: a <= b < |table| ==> table[a] <= table[b]
    ensures Received(g, cg, table, stddev, z, w, j, n) >= 0.0
  {
    if n > 0 {
      ReceivedNonNegative(g, cg, table, stddev, z, w, j, n - 1);
      ContributionNonNegative(g, cg, table, z, n - 1, w[n - 1], j);
    }
  }

  /**
   * Every contribution evolve adds is non-negative when the cached CDF table
   * is non-decreasing and the escape probability is a probability, so
   * diffusion keeps a non-negative belief non-negative.
   */
  lemma {:induction false} DiffusedNonNegative(g: Grid, cg: Grid, table: seq<real>, stddev: real, z: real, w: seq<real>)
    requires g.Valid() && g.WithinBig() && cg.Valid() && |table| == cg.size && |w| == g.size
    requires NonNegative(w) && 0.0 <= z <= 1.0
    requires forall a: nat, b: nat :: a <= b < |table| ==> table[a] <= table[b]
    ensures NonNegative(Diffused(g, cg, table, stddev, z, w))
  {
    forall j | 0 <= j < |w|
      ensures Diffused(g, cg, table, stddev, z, w)[j] >= 0.0
    {
      ReceivedNonNegative(g, cg, table, stddev, z, w, j, |w|);
    }
  }
  /** No bin is negative and some bin of a strictly positive rate holds mass. */
  ghost predicate Live(w: seq<real>)
  {
    NonNegative(w) && exists j :: 1 <= j < |w| && w[j] > 0.0
  }

  /** boost's Poisson pmf is strictly positive at every positive rate. */
  ghost predicate PositiveAtPositiveRates(pdf: (real, nat) -> real)
  {
    forall rate: real, k: nat :: rate > 0.0 ==> pdf(rate, k) > 0.0
  }

  /** Where bin i's mass is sure to go: the outage bin feeds bin 1, every other bin itself. */
  function Target(i: nat): nat
  {
    if i == 0 then 1 else i
  }

  /** The unit mass bin i sends to its target bin. */
  function KeptMass(g: Grid, cg: Grid, table: seq<real>, zeroEscape: real, i: nat): real
    requires g.Valid() && cg.Valid() && |table| == cg.size
  {
    Contribution(g, cg, table, zeroEscape, i, 1.0, g.FromBinMid(Target(i)), Target(i))
  }

  function KeptMasses(g: Grid, cg: Grid, table: seq<real>, zeroEscape: real): (m: seq<real>)
    requires g.Valid() && cg.Valid() && |table| == cg.size
    ensures |m| == g.size
  {
    seq(g.size, i requires 0 <= i => KeptMass(g, cg, table, zeroEscape, i))
  }

  /**
   * The diffusion keeps mass: every bin of a positive rate keeps part of its
   * own mass, and the outage bin passes part of its mass to bin 1.
   */
  ghost predicate KeepsMass(g: Grid, cg: Grid, table: seq<real>, zeroEscape: real)
    requires g.Valid() && cg.Valid() && |table| == cg.size
  {
    var m := KeptMasses(g, cg, table, zeroEscape);
    g.size >= 2 && forall i :: 0 <= i < |m| ==> m[i] > 0.0
  }

  /** A contribution is proportional to the weight it moves. */
  lemma {:induction false} ContributionScales(g: Grid, cg: Grid, table: seq<real>, z: real, i: nat, p: real, newRate: real, j: nat)
    requires g.Valid() && cg.Valid() && |table| == cg.size
    ensures Contribution(g, cg, table, z, i, p, newRate, j) == p * Contribution(g, cg, table, z, i, 1.0, newRate, j)
  {
    var f := ZFactor(z, i, j);
    var m := BinMass(g, cg, table, g.FromBinMid(i), newRate);
    assert f * p * m == p * (f * 1.0 * m);
  }

  /** A bin lies in its own for_range window. */
  lemma {:induction false} InWindowOwnBin(g: Grid, stddev: real, i: nat)
    requires g.Valid() && g.WithinBig() && stddev >= 0.0 && i < g.size
    ensures InWindow(g, stddev, i, i)
  {
    var rate := g.FromBinMid(i);
    ToBinOfMid(g, i);
    RangeBounds(g, rate - 5.0 * stddev, rate + 5.0 * stddev);
    ToBinMonotone(g, rate - 5.0 * stddev, rate);
    ToBinMonotone(g, rate, rate + 5.0 * stddev);
  }

  /** Bin 1 lies in the outage bin's for_range window, because the window runs one bin past its top. */
  lemma {:induction false} InWindowOutage(g: Grid, stddev: real)
    requires g.Valid() && g.WithinBig() && stddev >= 0.0 && g.size >= 2
    ensures InWindow(g, stddev, 0, 1)
  {
    var rate := g.FromBinMid(0);
    ToBinOfMid(g, 0);
    RangeBounds(g, rate - 5.0 * stddev, rate + 5.0 * stddev);
    ToBinMonotone(g, rate - 5.0 * stddev, rate);
  }

  /** What a new bin receives is at least any one contribution inside the window. */
  lemma {:induction false} ReceivedAtLeast(g: Grid, cg: Grid, table: seq<real>, stddev: real, z: real,
                                           w: seq<real>, j: nat, n: nat, k: nat)
    requires g.Valid() && g.WithinBig() && cg.Valid() && |table| == cg.size && n <= |w| && j < g.size
    requires NonNegative(w) && 0.0 <= z <= 1.0
    requires forall a: nat, b: nat :: a <= b < |table| ==> table[a] <= table[b]
    requires k < n && InWindow(g, stddev, k, j)
    ensures Received(g, cg, table, stddev, z, w, j, n) >= Contribution(g, cg, table, z, k, w[k], g.FromBinMid(j), j)
  {
    if k == n - 1 {
      ReceivedAtLeastLast(g, cg, table, stddev, z, w, j, n);
    } else {
      ReceivedAtLeast(g, cg, table, stddev, z, w, j, n - 1, k);
      ReceivedGrows(g, cg, table, stddev, z, w, j, n);
    }
  }

  /** The last source bin's contribution is part of what the target receives. */
  lemma {:induction false} ReceivedAtLeastLast(g: Grid, cg: Grid, table: seq<real>, stddev: real, z: real,
                                               w: seq<real>, j: nat, n: nat)
    requires g.Valid() && g.WithinBig() && cg.Valid() && |table| == cg.size && 0 < n <= |w| && j < g.size
    requires NonNegative(w) && 0.0 <= z <= 1.0
    requires forall a: nat, b: nat :: a <= b < |table| ==> table[a] <= table[b]
    requires InWindow(g, stddev, n - 1, j)
    ensures Received(g, cg, table, stddev, z, w, j, n)
            >= Contribution(g, cg, table, z, n - 1, w[n - 1], g.FromBinMid(j), j)
  {
    ReceivedNonNegative(g, cg, table, stddev, z, w, j, n - 1);
  }

  /** Adding a source bin never lowers what a target bin receives. */
  lemma {:induction false} ReceivedGrows(g: Grid, cg: Grid, table: seq<real>, stddev: real, z: real,
                                         w: seq<real>, j: nat, n: nat)
    requires g.Valid() && g.WithinBig() && cg.Valid() && |table| == cg.size && 0 < n <= |w| && j < g.size
    requires NonNegative(w) && 0.0 <= z <= 1.0
    requires forall a: nat, b: nat :: a <= b < |table| ==> table[a] <= table[b]
    ensures Received(g, cg, table, stddev, z, w, j, n) >= Received(g, cg, table, stddev, z, w, j, n - 1)
  {
    ContributionNonNegative(g, cg, table, z, n - 1, w[n - 1], j);
  }

  /**
   * Diffusing a non-negative belief with positive total leaves a live belief:
   * the bin holding mass keeps some (or, for the outage bin, passes some to bin 1).
   */
  lemma {:induction false} DiffusedLive(g: Grid, cg: Grid, table: seq<real>, stddev: real, z: real, w: seq<real>)
    requires g.Valid() && g.WithinBig() && cg.Valid() && |table| == cg.size && |w| == g.size
    requires NonNegative(w) && Sum(w) > 0.0 && 0.0 <= z <= 1.0 && stddev >= 0.0
    requires forall a: nat, b: nat :: a <= b < |table| ==> table[a] <= table[b]
    requires KeepsMass(g, cg, table, z)
    ensures Live(Diffused(g, cg, table, stddev, z, w))
  {
    var d := Diffused(g, cg, table, stddev, z, w);
    DiffusedNonNegative(g, cg, table, stddev, z, w);
    var i := PositiveEntry(w);
    var j := if i == 0 then 1 else i;
    if i == 0 {
      InWindowOutage(g, stddev);
    } else {
      InWindowOwnBin(g, stddev, i);
    }
    var unit := Contribution(g, cg, table, z, i, 1.0, g.FromBinMid(j), j);
    assert KeptMasses(g, cg, table, z)[i] == unit;
    var c := Contribution(g, cg, table, z, i, w[i], g.FromBinMid(j), j);
    var r := Received(g, cg, table, stddev, z, w, j, |w|);
    assert unit > 0.0;
    ContributionPositive(g, cg, table, z, i, w[i], g.FromBinMid(j), j);
    ReceivedAtLeast(g, cg, table, stddev, z, w, j, |w|, i);
    assert r >= c;
    assert d[j] == r;
  }

  /** A positive weight moved along a path of positive unit contribution contributes positively. */
  lemma {:induction false} ContributionPositive(g: Grid, cg: Grid, table: seq<real>, z: real, i: nat, p: real, newRate: real, j: nat)
    requires g.Valid() && cg.Valid() && |table| == cg.size
    requires p > 0.0 && Contribution(g, cg, table, z, i, 1.0, newRate, j) > 0.0
    ensures Contribution(g, cg, table, z, i, p, newRate, j) > 0.0
  {
    ContributionScales(g, cg, table, z, i, p, newRate, j);
    ProductPositive(p, Contribution(g, cg, table, z, i, 1.0, newRate, j));
  }

  lemma {:induction false} ProductPositive(a: real, b: real)
    requires a > 0.0 && b > 0.0
    ensures a * b > 0.0
  {
  }

  /** A live belief has a positive total, so normalize can divide by it. */
  lemma {:induction false} LiveHasMass(w: seq<real>)
    requires Live(w)
    ensures Sum(w) > 0.0
  {
    var j :| 1 <= j < |w| && w[j] > 0.0;
    ElementBelowSum(w, j);
  }

  /** Normalizing a non-negative belief with positive total keeps it non-negative, and live if it was. */
  lemma {:induction false} NormalizedKeepsSigns(w: seq<real>)
    requires NonNegative(w) && Sum(w) > 0.0
    ensures NonNegative(Normalized(w)) && Sum(Normalized(w)) == 1.0
    ensures Live(w) ==> Live(Normalized(w))
  {
    NormalizeIdempotent(w);
    var n := Normalized(w);
    forall i | 0 <= i < |w|
      ensures n[i] >= 0.0 && (w[i] > 0.0 ==> n[i] > 0.0)
    {
      assert n[i] == w[i] / Sum(w);
    }
  }

  /**
   * An observation keeps a live belief live when the Poisson pmf is positive
   * at positive rates: the bins of positive rate keep positive likelihood.
   */
  lemma {:induction false} ObservedLive(g: Grid, w: seq<real>, time: real, counts: nat, boostPdf: (real, nat) -> real)
    requires g.Valid() && g.offset == 0.0 && |w| == g.size && time > 0.0
    requires Live(w) && IsCountPmf(boostPdf) && PositiveAtPositiveRates(boostPdf)
    ensures Live(Observed(g, w, time, counts, boostPdf))
  {
    ObservePreservesNonNegative(g, w, time, counts, boostPdf);
    var o := Observed(g, w, time, counts, boostPdf);
    var j :| 1 <= j < |w| && w[j] > 0.0;
    MidMonotone(g, 0, j);
    var rate := g.FromBinMid(j) * time;
    assert rate > 0.0;
    assert o[j] == w[j] * Likelihood(boostPdf, g.FromBinMid(j), time, counts);
    assert Likelihood(boostPdf, g.FromBinMid(j), time, counts) == boostPdf(rate, counts) > 0.0;
    assert o[j] > 0.0;
  }
}
