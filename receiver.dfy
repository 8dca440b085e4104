/**
 * Receiver: Sprout's receiving end.  It keeps a belief over the link's
 * arrival rate, moves it forward one tick at a time (evolve, then observe the
 * packets counted in that tick), and turns it into a delivery forecast: for
 * each horizon of 1..NUM_TICKS ticks, the packet count the link delivers with
 * 95% confidence.
 */
module Receivers {
  import opened Sums
  import opened SampledFunctions
  import opened Processes
  import opened ProcessForecasters

  const MAX_ARRIVAL_RATE: real := 2000.0
  const BROWNIAN_MOTION_RATE: real := 300.0
  const OUTAGE_ESCAPE_RATE: real := 5.0
  const NUM_BINS: int := 64
  const TICK_LENGTH: real := 20.0
  const MAX_ARRIVALS_PER_TICK: nat := 30
  const NUM_TICKS: nat := 10

  /** The forecast reports the count reached with probability 1 - QUANTILE. */
  const QUANTILE: real := 0.05

  /** What forecast() hands back: the tick length and one count per horizon. */
  datatype DeliveryForecast = DeliveryForecast(tickLength: real, counts: seq<nat>)

  /**
   * Everything a receiver's belief and forecasters are computed from: the
   * grids its Process builds from the constants above, the CDF table for one
   * tick's deviation, and the outage escape probability per tick.
   */
  function ReceiverSetting(tickDeviation: real, normalCdf: (real, real) -> real,
                           boostPdf: (real, nat) -> real): IntervalSetting
  {
    var cg := Grid(-MAX_ARRIVAL_RATE, (MAX_ARRIVAL_RATE - -MAX_ARRIVAL_RATE) / (NUM_BINS * 128) as real,
                   NUM_BINS * 128 + 1);
    IntervalSetting(Grid(0.0, MAX_ARRIVAL_RATE / NUM_BINS as real, NUM_BINS + 1), cg,
                    CdfTable(cg, normalCdf, tickDeviation), tickDeviation,
                    ZeroEscape(boostPdf, TICK_LENGTH, OUTAGE_ESCAPE_RATE), TICK_LENGTH, MAX_ARRIVALS_PER_TICK,
                    boostPdf)
  }

  /**
   * Every process laid out as the receiver's (MAX_ARRIVAL_RATE, NUM_BINS,
   * OUTAGE_ESCAPE_RATE) hands the interval constructor exactly the
   * receiver's setting, whatever its belief weights and cached table.
   */
  lemma SettingOfReceiverProcess(p: Process, tickDeviation: real, normalCdf: (real, real) -> real,
                                 boostPdf: (real, nat) -> real)
    requires p.pmf.Layout() == Grid(0.0, MAX_ARRIVAL_RATE / NUM_BINS as real, NUM_BINS + 1)
    requires p.gaussian.cdf.Layout()
             == Grid(-MAX_ARRIVAL_RATE, (MAX_ARRIVAL_RATE - -MAX_ARRIVAL_RATE) / (NUM_BINS * 128) as real, NUM_BINS * 128 + 1)
    requires p.outageEscapeRate == OUTAGE_ESCAPE_RATE
    ensures SettingOf(p, TICK_LENGTH, MAX_ARRIVALS_PER_TICK, tickDeviation, normalCdf, boostPdf)
            == ReceiverSetting(tickDeviation, normalCdf, boostPdf)
  {
  }

  /** The part of a receiver that advance_to moves: belief weights, this tick's count, the clock. */
  datatype TickState = TickState(belief: seq<real>, count: nat, time: real)

  /** The belief after one pass of advance_to's loop: evolve, then observe the count if there is one. */
  function TickBelief(s: IntervalSetting, w: seq<real>, count: nat): (r: seq<real>)
    requires Spreads(s) && |w| == s.grid.size
    ensures |r| == |w|
  {
    var d := Diffused(s.grid, s.cacheGrid, s.table, s.stddev, s.zeroEscape, w);
    if count == 0 then d else Observed(s.grid, d, TICK_LENGTH, count, s.boostPdf)
  }

  /** The number of whole ticks advance_to(target) steps from `time`. */
  function Steps(time: real, target: real): nat
    decreases target - time
  {
    if time + TICK_LENGTH < target then 1 + Steps(time + TICK_LENGTH, target) else 0
  }

  /** The state advance_to(target) leaves, one loop pass per tick while a whole tick fits before target. */
  function Advanced(s: IntervalSetting, st: TickState, target: real): (r: TickState)
    requires Spreads(s) && |st.belief| == s.grid.size
    ensures |r.belief| == s.grid.size
    decreases target - st.time
  {
    if st.time + TICK_LENGTH < target then
      Advanced(s, TickState(TickBelief(s, st.belief, st.count), 0, st.time + TICK_LENGTH), target)
    else st
  }

  /** n ticks of evolve with nothing observed. */
  function Evolved(s: IntervalSetting, w: seq<real>, n: nat): (r: seq<real>)
    requires Spreads(s) && |w| == s.grid.size
    ensures |r| == |w|
    decreases n
  {
    if n == 0 then w else Evolved(s, Diffused(s.grid, s.cacheGrid, s.table, s.stddev, s.zeroEscape, w), n - 1)
  }

  /**
   * The clock after advance_to(target): it moves by a whole number of ticks,
   * ends within one tick of target, stays before target when it moves at all,
   * and a target within one tick of the clock leaves the state as it was.
   */
  lemma {:induction false} AdvancedClock(s: IntervalSetting, st: TickState, target: real)
    requires Spreads(s) && |st.belief| == s.grid.size
    ensures Advanced(s, st, target).time == st.time + TICK_LENGTH * Steps(st.time, target) as real
    ensures Advanced(s, st, target).time + TICK_LENGTH >= target
    ensures Steps(st.time, target) > 0 ==> Advanced(s, st, target).time < target
    ensures target <= st.time + TICK_LENGTH ==> Advanced(s, st, target) == st
    decreases target - st.time
  {
    if st.time + TICK_LENGTH < target {
      var next := TickState(TickBelief(s, st.belief, st.count), 0, st.time + TICK_LENGTH);
      AdvancedClock(s, next, target);
    }
  }

  /**
   * observe runs at most once per advance_to: only the first tick folds in
   * the count, every later tick only evolves, and the count ends at zero
   * whenever a tick was taken.
   */
  lemma {:induction false} ObserveAtMostOnce(s: IntervalSetting, st: TickState, target: real)
    requires Spreads(s) && |st.belief| == s.grid.size
    requires Steps(st.time, target) > 0
    ensures Advanced(s, st, target).belief
            == Evolved(s, TickBelief(s, st.belief, st.count), Steps(st.time, target) - 1)
    ensures Advanced(s, st, target).count == 0
  {
    var next := TickState(TickBelief(s, st.belief, st.count), 0, st.time + TICK_LENGTH);
    QuietTicks(s, next, target);
  }

  /** With no count pending, advancing only evolves, once per tick. */
  lemma {:induction false} QuietTicks(s: IntervalSetting, st: TickState, target: real)
    requires Spreads(s) && |st.belief| == s.grid.size && st.count == 0
    ensures Advanced(s, st, target).belief == Evolved(s, st.belief, Steps(st.time, target))
    ensures Advanced(s, st, target).count == 0
    decreases target - st.time
  {
    if st.time + TICK_LENGTH < target {
      var next := TickState(TickBelief(s, st.belief, 0), 0, st.time + TICK_LENGTH);
      QuietTicks(s, next, target);
    }
  }

  /** A forecaster's table has one row per belief bin, all of one positive width. */
  predicate Fits(f: IntervalForecast, bins: nat)
  {
    && |f.countProbability| == bins > 0
    && Rectangular(f.countProbability, |f.countProbability[0]|)
  }

  ghost predicate AllFit(fs: seq<IntervalForecast>, bins: nat)
  {
    forall i :: 0 <= i < |fs| ==> Fits(fs[i], bins)
  }

  /** The lower quantile of forecaster f under belief w: the first count reaching QUANTILE, else the sentinel. */
  function Quantile(f: IntervalForecast, w: seq<real>): nat
    requires Fits(f, |w|)
  {
    QuantileCount(CountDistribution(f.countProbability, w), QUANTILE)
  }

  /** forecast()'s counts: every forecaster's lower quantile, in forecaster order. */
  function Quantiles(fs: seq<IntervalForecast>, w: seq<real>): (r: seq<nat>)
    requires AllFit(fs, |w|)
    ensures |r| == |fs|
  {
    if fs == [] then [] else Quantiles(fs[..|fs| - 1], w) + [Quantile(fs[|fs| - 1], w)]
  }

  /** Entry i of the counts belongs to forecaster i. */
  lemma {:induction false} QuantilesAt(fs: seq<IntervalForecast>, w: seq<real>, i: nat)
    requires AllFit(fs, |w|) && i < |fs|
    ensures Quantiles(fs, w)[i] == Quantile(fs[i], w)
  {
    if i < |fs| - 1 {
      QuantilesAt(fs[..|fs| - 1], w, i);
    }
  }

  /**
   * Each forecast count is either the sentinel one past the forecaster's last
   * count, or a count whose cumulative probability reaches QUANTILE while
   * every smaller count's stays below it.
   */
  lemma {:induction false} QuantileMeaning(f: IntervalForecast, w: seq<real>)
    requires Fits(f, |w|)
    ensures var d := CountDistribution(f.countProbability, w);
            var c := Quantile(f, w);
            || c == |d| + 1
            || (c < |d| && Cumulative(d, c) >= QUANTILE && forall j :: 0 <= j < c ==> Cumulative(d, j) < QUANTILE)
  {
    QuantileCountMonotone(CountDistribution(f.countProbability, w), QUANTILE, QUANTILE);
  }

  /** The forecaster for n ticks built from setting s has the table's shape. */
  lemma {:induction false} IntervalForecastFits(s: IntervalSetting, n: nat)
    requires Spreads(s) && s.tickUpperLimit >= 1
    ensures Fits(IntervalForecast(IntervalTable(s, n)), s.grid.size)
  {
    IntervalTableRectangular(s, n);
  }

  class Receiver {
    const process: Process
    const forecasters: seq<IntervalForecast>
    var time: real
    var countThisTick: nat

    /** One tick's diffusion deviation, BROWNIAN_MOTION_RATE * sqrt(TICK_LENGTH). */
    const tickDeviation: real
    /** boost's normal CDF and Poisson pmf, which the process calls. */
    const normalCdf: (real, real) -> real
    const boostPdf: (real, nat) -> real

    ghost function Setting(): IntervalSetting
    {
      ReceiverSetting(tickDeviation, normalCdf, boostPdf)
    }

    /** The belief, the count of the current tick and the clock. */
    ghost function State(): TickState
      reads this, process, process.pmf
    {
      TickState(process.pmf.weights, countThisTick, time)
    }

    /**
     * What the receiver takes from its libraries: one tick's deviation, a
     * normal CDF under which the diffusion spreads and keeps mass, and a
     * Poisson pmf into [0, 1] that is positive at positive rates.
     */
    ghost predicate Calibrated()
    {
      && Spreads(Setting()) && IsCountPmf(boostPdf) && PositiveAtPositiveRates(boostPdf)
      && DeviationFor(tickDeviation, BROWNIAN_MOTION_RATE, TICK_LENGTH)
    }

    /** Forecaster i covers i + 1 ticks from the receiver's setting. */
    ghost predicate ForecastersCover()
    {
      && Calibrated()
      && |forecasters| == NUM_TICKS
      && forall i :: 0 <= i < NUM_TICKS ==> forecasters[i].countProbability == IntervalTable(Setting(), i + 1)
    }

    /** Every forecaster's table has one row per belief bin. */
    ghost predicate Shaped()
    {
      |forecasters| == NUM_TICKS && AllFit(forecasters, NUM_BINS + 1)
    }

    /**
     * The process lives on the setting's grids with the receiver's rates, its
     * cache is either unused or holds one tick's table, and its belief stays
     * live, so normalize can divide.
     */
    ghost predicate Valid()
      reads this, process, process.pmf, process.gaussian, process.gaussian.cdf
    {
      && process.Valid()
      && process.pmf.Layout() == Setting().grid && process.gaussian.cdf.Layout() == Setting().cacheGrid
      && process.brownianMotionRate == BROWNIAN_MOTION_RATE && process.outageEscapeRate == OUTAGE_ESCAPE_RATE
      && (process.gaussian.stddev == tickDeviation ==> process.gaussian.cdf.weights == Setting().table)
      && Live(process.pmf.weights)
    }

    /** A uniform belief, the clock at sTime, no packets counted, and NUM_TICKS interval forecasters. */
    constructor (sTime: real, sTickDeviation: real, sNormalCdf: (real, real) -> real, sBoostPdf: (real, nat) -> real)
      requires DeviationFor(sTickDeviation, BROWNIAN_MOTION_RATE, TICK_LENGTH)
      requires Spreads(ReceiverSetting(sTickDeviation, sNormalCdf, sBoostPdf))
      requires IsCountPmf(sBoostPdf) && PositiveAtPositiveRates(sBoostPdf)
      ensures Calibrated() && ForecastersCover() && Shaped() && Valid() && fresh(process.Repr())
      ensures time == sTime && countThisTick == 0 && process.normalized
      ensures process.pmf.weights == seq(NUM_BINS + 1, _ => 1.0 / (NUM_BINS + 1) as real)
      ensures tickDeviation == sTickDeviation && normalCdf == sNormalCdf && boostPdf == sBoostPdf
    {
      var p := new Process(MAX_ARRIVAL_RATE, BROWNIAN_MOTION_RATE, OUTAGE_ESCAPE_RATE, NUM_BINS);
      ghost var s := ReceiverSetting(sTickDeviation, sNormalCdf, sBoostPdf);
      SettingOfReceiverProcess(p, sTickDeviation, sNormalCdf, sBoostPdf);
      var made := MakeForecasters(p, sTickDeviation, sNormalCdf, sBoostPdf, s);
      process := p;
      forecasters := made;
      time := sTime;
      countThisTick := 0;
      tickDeviation := sTickDeviation;
      normalCdf := sNormalCdf;
      boostPdf := sBoostPdf;
      UniformIsLive(NUM_BINS + 1);
    }

    /**
     * advance_to: while a whole tick fits before `target`, evolve the belief by
     * one tick, observe the tick's count if it is non-zero, reset the count and
     * move the clock one tick on.
     */
    method AdvanceTo(target: real)
      requires Calibrated() && Valid() && target >= time
      modifies this, process, process.pmf, process.gaussian, process.gaussian.cdf
      ensures Valid()
      ensures State() == Advanced(Setting(), old(State()), target)
      ensures process.normalized == (old(process.normalized) && target <= old(time) + TICK_LENGTH)
    {
      while time + TICK_LENGTH < target
        invariant Valid()
        invariant Advanced(Setting(), State(), target) == Advanced(Setting(), old(State()), target)
        invariant time >= old(time)
        invariant time == old(time) ==> process.normalized == old(process.normalized)
        invariant time != old(time) ==> !process.normalized && old(time) + TICK_LENGTH < target
        decreases target - time
      {
        AdvanceOneTick();
      }
    }

    /** One pass of advance_to's loop. */
    method AdvanceOneTick()
      requires Calibrated() && Valid()
      modifies this, process, process.pmf, process.gaussian, process.gaussian.cdf
      ensures Valid() && !process.normalized
      ensures State() == TickState(TickBelief(Setting(), old(process.pmf.weights), old(countThisTick)), 0,
                                   old(time) + TICK_LENGTH)
    {
      ghost var s := Setting();
      ghost var w := process.pmf.weights;
      LiveHasMass(w);
      process.Evolve(TICK_LENGTH, tickDeviation, normalCdf, boostPdf);
      ghost var d := process.pmf.weights;
      assert d == Diffused(s.grid, s.cacheGrid, s.table, s.stddev, s.zeroEscape, w);
      DiffusedLive(s.grid, s.cacheGrid, s.table, s.stddev, s.zeroEscape, w);
      if countThisTick != 0 {
        process.Observe(TICK_LENGTH, countThisTick, boostPdf);
        ObservedLive(s.grid, d, TICK_LENGTH, countThisTick, boostPdf);
        countThisTick := 0;
      }
      time := time + TICK_LENGTH;
    }

    /** recv: one more packet in the current tick. */
    method Recv()
      requires Valid()
      modifies this
      ensures Valid()
      ensures countThisTick == old(countThisTick) + 1 && time == old(time)
    {
      countThisTick := countThisTick + 1;
    }

    /**
     * forecast: normalize the belief, then ask every forecaster, in order, for
     * the QUANTILE lower quantile of its delivery count.
     */
    method Forecast() returns (f: DeliveryForecast)
      requires Shaped() && Valid()
      modifies process, process.pmf
      ensures Valid() && process.normalized
      ensures Sum(old(process.pmf.weights)) != 0.0 && process.pmf.weights == Normalized(old(process.pmf.weights))
      ensures f == DeliveryForecast(TICK_LENGTH, Quantiles(forecasters, process.pmf.weights))
    {
      LiveHasMass(process.pmf.weights);
      NormalizedKeepsSigns(process.pmf.weights);
      process.Normalize();
      var counts := LowerQuantiles(forecasters, process);
      f := DeliveryForecast(TICK_LENGTH, counts);
    }
  }

  /** The constructor's loop: forecaster i covers i + 1 ticks of the example process. */
  method MakeForecasters(example: Process, tickDeviation: real, normalCdf: (real, real) -> real,
                         boostPdf: (real, nat) -> real, ghost s: IntervalSetting)
    returns (made: seq<IntervalForecast>)
    requires example.Valid() && example.gaussian.stddev == -1.0
    requires DeviationFor(tickDeviation, example.brownianMotionRate, TICK_LENGTH)
    requires s == SettingOf(example, TICK_LENGTH, MAX_ARRIVALS_PER_TICK, tickDeviation, normalCdf, boostPdf)
    requires Spreads(s)
    ensures |made| == NUM_TICKS && AllFit(made, s.grid.size)
    ensures forall i :: 0 <= i < NUM_TICKS ==> made[i].countProbability == IntervalTable(s, i + 1)
  {
    made := [];
    var i := 0;
    while i < NUM_TICKS
      invariant 0 <= i <= NUM_TICKS && |made| == i && AllFit(made, s.grid.size)
      invariant forall k :: 0 <= k < i ==> made[k].countProbability == IntervalTable(s, k + 1)
    {
      var one := MakeForecaster(example, tickDeviation, normalCdf, boostPdf, s, i + 1);
      MadeOneMore(made, one, s);
      made := made + [one];
      i := i + 1;
    }
  }

  /** Appending the forecaster for |made| + 1 ticks keeps the constructor's loop invariant. */
  lemma MadeOneMore(made: seq<IntervalForecast>, one: IntervalForecast, s: IntervalSetting)
    requires Spreads(s) && s.tickUpperLimit >= 1
    requires AllFit(made, s.grid.size) && forall k :: 0 <= k < |made| ==> made[k].countProbability == IntervalTable(s, k + 1)
    requires one.countProbability == IntervalTable(s, |made| + 1) && Fits(one, s.grid.size)
    ensures AllFit(made + [one], s.grid.size)
    ensures forall k :: 0 <= k < |made| + 1 ==> (made + [one])[k].countProbability == IntervalTable(s, k + 1)
  {
  }

  /** One forecaster of the constructor's loop, covering n ticks. */
  method MakeForecaster(example: Process, tickDeviation: real, normalCdf: (real, real) -> real,
                        boostPdf: (real, nat) -> real, ghost s: IntervalSetting, n: nat)
    returns (one: IntervalForecast)
    requires example.Valid() && example.gaussian.stddev == -1.0
    requires DeviationFor(tickDeviation, example.brownianMotionRate, TICK_LENGTH)
    requires s == SettingOf(example, TICK_LENGTH, MAX_ARRIVALS_PER_TICK, tickDeviation, normalCdf, boostPdf)
    requires Spreads(s)
    ensures one.countProbability == IntervalTable(s, n) && Fits(one, s.grid.size)
  {
    one := MakeIntervalForecast(TICK_LENGTH, example, MAX_ARRIVALS_PER_TICK, n, tickDeviation, normalCdf, boostPdf);
    IntervalForecastFits(s, n);
  }

  /** forecast()'s loop: every forecaster's lower quantile under the normalized ensemble, in order. */
  method LowerQuantiles(forecasters: seq<IntervalForecast>, ensemble: Process) returns (counts: seq<nat>)
    requires ensemble.Valid() && ensemble.normalized && AllFit(forecasters, |ensemble.pmf.weights|)
    ensures counts == Quantiles(forecasters, ensemble.pmf.weights)
  {
    ghost var w := ensemble.pmf.weights;
    counts := [];
    var i := 0;
    while i < |forecasters|
      invariant 0 <= i <= |forecasters|
      invariant counts == Quantiles(forecasters[..i], w)
    {
      var c := IntervalLowerQuantile(forecasters[i], ensemble, QUANTILE);
      assert forecasters[..i + 1][..i] == forecasters[..i];
      counts := counts + [c];
      i := i + 1;
    }
    assert forecasters[..i] == forecasters;
  }

  /** The uniform prior is live: every bin, including those of positive rate, holds mass. */
  lemma {:induction false} UniformIsLive(n: nat)
    requires n >= 2
    ensures Live(seq(n, _ => 1.0 / n as real))
  {
    var u := seq(n, _ => 1.0 / n as real);
    assert u[1] > 0.0;
  }
}
