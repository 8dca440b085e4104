# Sprout, modelled in Dafny

Sprout is a congestion-control scheme for cellular links. Its receiver
keeps a Bayesian belief over the link's packet-arrival rate. The belief is
a histogram (`SampledFunction`) over rate bins, held by a `Process`. The
receiver turns that belief into a cautious forecast of how many packets
the link will deliver over the next ticks (`ProcessForecastTick`,
`ProcessForecastInterval`, `Receiver`). The forecast goes back to the
sender in a small header in front of each datagram (`ForecastPacket`). The
sender (`SproutConnection`) turns the latest forecast and its own estimate
of the bytes in flight into a byte allowance, and drains its send queue
against it. Two link emulators (`DelayQueue` in `cellsim` and `cellproxy`)
replay a trace of delivery opportunities. Each puts packets through a
fixed delay line and then a ready queue served at those opportunities.

The project has one module per source file, plus three shared ones:

- `Bytes` holds the byte type.
- `Sums` holds finite sums over `seq<real>`: `Sum`, `Dot`, `OneHot`.
- `DelayLines` holds what both emulators share: the delayed packet, the
  sorted trace, the delay-line invariant, and a conservation predicate
  saying that nothing is lost, duplicated or reordered.

| module | file | models |
|---|---|---|
| `SampledFunctions` | `sampled_function.dfy` | `src/sprout/sampledfunction.hh`, `src/sprout/sampledfunction.cc` |
| `Processes` | `process.dfy` | `src/sprout/process.cc`, `src/sprout/process.hh`, `src/sprout/mypoisson.hh` |
| `ProcessForecasters` | `process_forecaster.dfy` | `src/sprout/processforecaster.cc` |
| `Receivers` | `receiver.dfy` | `src/sprout/receiver.cc` (constants from `src/sprout/receiver.hh`) |
| `ForecastPackets` | `forecast_packet.dfy` | `ForecastPacket` in `src/network/sproutconn.h` |
| `SproutConnections` | `sprout_connection.dfy` | `src/network/sproutconn.cc` |
| `CellSim` | `cellsim.dfy` | `DelayQueue` in `src/examples/cellsim.cc` |
| `CellProxy` | `cellproxy.dfy` | `DelayQueue` in `src/examples/cellproxy.cc` |

Doubles are Dafny `real`s, so every sum is exact. The C++ truncation of a
negative quotient toward zero is written out (`SampledFunctions.Truncate`).
Objects whose fields the source updates in place are classes:
`SampledFunction`, `GaussianCache`, `Process`, `Receiver`,
`SproutConnection` and both `DelayQueue`s. A `std::vector` or `std::queue`
they mutate is a `seq` field that their methods reassign. The forecast
tables, which are only read once built, are datatypes. Each loop of the
source is a `while` loop in a method, and the method is proved against a
specification function. The facts the source promises are proved as lemmas
about those functions.

Outside calls are parameters:

- the wall clock (`timestamp()`) is a `now` argument;
- boost's Poisson pmf and normal CDF are function-valued arguments;
- protobuf serialisation and parsing are function-valued arguments;
- the underlying `Connection`'s forecast, next sequence number and tick
  length are arguments.

The emulators carry ghost fields: `clock` (the latest time read),
`written` (every packet written) and `handedOut` (every packet read out).
They let the invariants state conservation and FIFO order.

## Model

| member | source | states |
|---|---|---|
| `SampledFunctions.Truncate` | src/sprout/sampledfunction.hh:16 | the `int` cast of the bin quotient: the floor for non-negative quotients, at most 0 for negative ones |
| `SampledFunctions.Grid.ToBin` | src/sprout/sampledfunction.hh:16 | the bin is always below size; values under the offset go to bin 0, values past the top go to size-1, and an in-range x lies in its bin's half-open interval |
| `SampledFunctions.Grid.BinBounds` | src/sprout/sampledfunction.hh:16 | the truncated quotient brackets x between the edges of its bin, and falls below 0 or at or above size exactly when x is outside the grid |
| `SampledFunctions.ToBinExact` | src/sprout/sampledfunction.hh:16 | if offset + i·w ≤ x < offset + (i+1)·w then `to_bin(x)` is i |
| `SampledFunctions.ToBinMonotone` | src/sprout/sampledfunction.hh:16 | `to_bin` is non-decreasing in x |
| `SampledFunctions.InBinLower` | src/sprout/sampledfunction.hh:16 | for x ≥ offset, the lower edge of x's bin is at most x |
| `SampledFunctions.InBinUpper` | src/sprout/sampledfunction.hh:16 | for x below the top of the grid, x is below the upper edge of its bin |
| `SampledFunctions.MidpointsAndEdges` | src/sprout/sampledfunction.hh:18-20 | `from_bin_mid(0)` is the offset itself; the edge bins are open-ended (−BIG and BIG); an interior bin has floor < mid < ceil, and its ceiling is the next bin's floor |
| `SampledFunctions.ToBinOfMid` | src/sprout/sampledfunction.hh:16-20 | every bin's midpoint maps back to that bin |
| `SampledFunctions.MidMonotone` | src/sprout/sampledfunction.hh:20 | midpoints strictly increase with the bin index |
| `SampledFunctions.SampleBrackets` | src/sprout/sampledfunction.hh:30-31 | for \|x\| < BIG, `sample_floor(x)` ≤ x < `sample_ceil(x)` |
| `SampledFunctions.FloorBelowCeil` | src/sprout/sampledfunction.hh:18-19 | on a grid inside ±BIG, every bin's floor is below its ceiling |
| `SampledFunctions.ToBinOfFloor` | src/sprout/sampledfunction.hh:16-18 | the floor of a bin other than 0 maps back to that bin |
| `SampledFunctions.RangeBounds` | src/sprout/sampledfunction.cc:33-43 | `for_range` starts at `to_bin(min)`; it ends one bin past `to_bin(max)`, clamped to the last bin |
| `SampledFunctions.RangeLowBound` | src/sprout/sampledfunction.cc:39 | the first bin `for_range` touches is `to_bin(sample_floor(min))` = `to_bin(min)` |
| `SampledFunctions.RangeHighBound` | src/sprout/sampledfunction.cc:40 | the last bin `for_range` touches is `to_bin(sample_ceil(max))`, one past `to_bin(max)` unless that is the last bin |
| `SampledFunctions.FirstReaching` | src/sprout/sampledfunction.cc:58-64 | the quantile walk stops at the first bin whose cumulative weight reaches x, or runs off the end |
| `SampledFunctions.FirstReachingFrom` | src/sprout/sampledfunction.cc:58-64 | the walk from bin i stops at the first bin ≥ i whose cumulative weight reaches x |
| `SampledFunctions.FirstReachingMonotone` | src/sprout/sampledfunction.cc:58-64 | a larger target never stops the walk earlier |
| `SampledFunctions.LowerQuantileMonotone` | src/sprout/sampledfunction.cc:54-66 | `lower_quantile` is non-decreasing in x |
| `SampledFunctions.QuantileOfBinMonotone` | src/sprout/sampledfunction.cc:54-66 | the value reported for a bin (0 for bin 0, its floor otherwise) is non-decreasing in the bin |
| `SampledFunctions.LowerQuantileCases` | src/sprout/sampledfunction.cc:54-66 | three cases: 0 if bin 0 already reaches x; the floor of the first bin whose cumulative sum reaches x; the last bin's floor when the total never reaches x |
| `SampledFunctions.SummationOneHot` | src/sprout/sampledfunction.cc:68-76 | summation against a one-hot function at j returns `cp[j][c]` |
| `SampledFunctions.SampledFunction.constructor` | src/sprout/sampledfunction.cc:6-13 | offset = min, bin width = (max-min)/num_samples, num_samples+1 bins, each 1.0 |
| `SampledFunctions.SampledFunction.Copy` | src/sprout/sampledfunction.hh:10-14 | the implicit copy constructor copies offset, width and weights |
| `SampledFunctions.SampledFunction.Index` | src/sprout/sampledfunction.hh:26 | `index(x)` is always a valid index into the weights |
| `SampledFunctions.SampledFunction.At` | src/sprout/sampledfunction.hh:27-28 | `operator[](x)` reads the cell `index(x)` |
| `SampledFunctions.SampledFunction.Put` | src/sprout/sampledfunction.hh:27 | writing through `operator[](x)` changes exactly the cell `index(x)`, and reading x back gives the value written |
| `SampledFunctions.SampledFunction.ForEach` | src/sprout/sampledfunction.cc:15-22 | every bin i is rewritten once, with `f(from_bin_mid(i), old value, i)`; the layout is unchanged |
| `SampledFunctions.SampledFunction.Accumulate` | src/sprout/sampledfunction.cc:24-31 | the read-only `for_each` visits bins 0..size-1 in order: its result is the left fold over the bins |
| `SampledFunctions.SampledFunction.ForRange` | src/sprout/sampledfunction.cc:33-43 | exactly the bins from `to_bin(sample_floor(min))` to `to_bin(sample_ceil(max))` are rewritten; every other bin is unchanged |
| `SampledFunctions.SampledFunction.Assign` | src/sprout/sampledfunction.cc:45-52 | requires equal offset and bin width, then copies the weight vector |
| `SampledFunctions.SampledFunction.LowerQuantile` | src/sprout/sampledfunction.cc:54-66 | the loop returns the quantile whose three cases `LowerQuantileCases` states |
| `SampledFunctions.SampledFunction.Summation` | src/sprout/sampledfunction.cc:68-76 | the result is Σᵢ f[i]·cp[i][c] |
| `Processes.GaussianCache.constructor` | src/sprout/process.cc:108-111 | the cache grid spans −max..max with the given bins; the stored deviation is −1, so the first `calculate` always fills it |
| `Processes.GaussianCache.Copy` | src/sprout/process.hh:9-18 | the implicit copy keeps grid, table and deviation |
| `Processes.GaussianCache.Calculate` | src/sprout/process.cc:113-123 | the table is recomputed only when the deviation changes; otherwise it is left as it was |
| `Processes.GaussianCache.Assign` | src/sprout/process.hh:9-18 | the implicit assignment copies the table and the deviation |
| `Processes.CdfTableMonotone` | src/sprout/process.cc:113-123 | a monotone CDF gives a non-decreasing table |
| `Processes.Process.constructor` | src/sprout/process.cc:10-18 | a uniform belief over bins+1 bins of width max/bins, which sums to 1 and is flagged normalized; the cache starts empty |
| `Processes.Process.Copy` | src/sprout/processforecaster.cc:13 | copying a process copies the belief, the cache, the flag and both rates |
| `Processes.Process.Observe` | src/sprout/process.cc:20-30 | each bin is multiplied by the likelihood of the counts at its midpoint rate; the flag is cleared and the bin count kept |
| `Processes.Process.Normalize` | src/sprout/process.cc:32-55 | a no-op when flagged; otherwise divides by the total; the flag is set after |
| `Processes.Process.SetCertain` | src/sprout/process.cc:125-145 | bin `index(rate)` holds 1 and all others 0, and the flag is set |
| `Processes.Process.Evolve` | src/sprout/process.cc:57-106 | the cache is recalculated for the new deviation; the belief becomes its diffusion with zero-rate escape; the flag is cleared |
| `Processes.Process.CountProbability` | src/sprout/process.cc:157-169 | the result is Σᵢ wᵢ·likelihood(midᵢ·time, counts), and the process is not changed |
| `Processes.Process.Assign` | src/sprout/process.cc:147-155 | copies pmf, cache, flag and Brownian rate; the outage escape rate stays |
| `Processes.Spread` | src/sprout/process.cc:76-102 | evolve's outer loop over the old bins builds the diffused belief from zero |
| `Processes.SpreadBin` | src/sprout/process.cc:76-102 | one old bin's mass is added to the bins within its window |
| `Processes.FoldIsSum` | src/sprout/process.cc:37-39 | the running total in `normalize` is the sum of the weights |
| `Processes.LikelihoodFoldIsDot` | src/sprout/process.cc:161-166 | the accumulation in `count_probability` is the dot product of weights and likelihoods |
| `Processes.FoldIsDot` | src/sprout/process.cc:161-166 | a fold that adds weight × l[i] computes the dot product with l |
| `Processes.NormalizedUniform` | src/sprout/process.cc:11-17 | normalising n ones gives the uniform 1/n belief |
| `Processes.NormalizedOfUnit` | src/sprout/process.cc:32-55 | normalising a belief that sums to 1 changes nothing |
| `Processes.NormalizeIdempotent` | src/sprout/process.cc:32-55 | the normalised belief sums to 1, and normalising again changes nothing |
| `Processes.ObserveZeroesOutageBin` | src/sprout/mypoisson.hh:6-13 | observing a positive count zeroes bin 0, whose rate is 0 |
| `Processes.ObservePreservesNonNegative` | src/sprout/process.cc:20-30 | observation keeps the weights non-negative |
| `Processes.CountProbabilityBounded` | src/sprout/process.cc:157-169 | for a normalised belief, the count probability is in [0, 1] |
| `Processes.CountProbabilityOfCertain` | src/sprout/process.cc:157-169 | for a one-hot belief at bin k, the count probability is the likelihood at k's midpoint |
| `Processes.BinMassNonNegative` | src/sprout/process.cc:87-89 | with a monotone CDF table, the mass a bin receives is non-negative |
| `Processes.ContributionNonNegative` | src/sprout/process.cc:83-89 | each contribution of an old bin to a new bin is non-negative |
| `Processes.ReceivedNonNegative` | src/sprout/process.cc:76-102 | the partial sums evolve builds stay non-negative |
| `Processes.DiffusedNonNegative` | src/sprout/process.cc:57-106 | evolve keeps the belief non-negative |
| `Processes.InWindowOwnBin` | src/sprout/process.cc:76-78 | every bin lies within its own diffusion window |
| `Processes.InWindowOutage` | src/sprout/process.cc:76-78 | bin 1 lies within bin 0's window, so outage mass can escape |
| `Processes.ReceivedAtLeast` | src/sprout/process.cc:76-102 | a new bin holds at least the contribution of any old bin whose window covers it |
| `Processes.ReceivedGrows` | src/sprout/process.cc:76-102 | the partial sums for a new bin grow with every old bin visited |
| `Processes.DiffusedLive` | src/sprout/process.cc:57-106 | if each bin keeps some of its own mass, evolve leaves a belief with a positive total, so `normalize` can divide by it |
| `Processes.NormalizedKeepsSigns` | src/sprout/process.cc:32-55 | normalising a non-negative belief with positive total keeps it non-negative and live, and it sums to 1 |
| `Processes.ObservedLive` | src/sprout/process.cc:20-30 | with a pmf that is positive at positive rates, observation leaves a live belief |
| `Processes.LiveHasMass` | src/sprout/process.cc:41-44 | a live belief has a positive total |
| `ProcessForecasters.EnsembleProbabilityOfCertain` | src/sprout/processforecaster.cc:49-66 | for a one-hot ensemble at j, `probability` is row j's entry, clamped to 1 |
| `ProcessForecasters.EnsembleProbabilityBounded` | src/sprout/processforecaster.cc:49-66 | for a normalised ensemble and rows in [0, 1], the weighted sum is the dot product and lies in [0, 1] |
| `ProcessForecasters.TickRowTotal` | src/sprout/processforecaster.cc:34-42 | every tick row sums to 1, since the overflow bucket is 1 minus the rest; each count entry is in [0, 1] |
| `ProcessForecasters.MakeComponents` | src/sprout/processforecaster.cc:7-20 | one fresh component per bin, and component i is certain at bin i |
| `ProcessForecasters.MakeComponent` | src/sprout/processforecaster.cc:11-17 | a copy of the example set certain at one bin's midpoint |
| `ProcessForecasters.MakeTickForecast` | src/sprout/processforecaster.cc:22-47 | the constructor builds exactly the tick table |
| `ProcessForecasters.TickRowOf` | src/sprout/processforecaster.cc:31-44 | the inner loop builds the row of a component certain at bin k |
| `ProcessForecasters.TickProbability` | src/sprout/processforecaster.cc:49-66 | the result is the ensemble-weighted entry for the count, clamped to 1 |
| `ProcessForecasters.Convolve` | src/sprout/processforecaster.cc:68-80 | the double loop computes ret[k] = Σ_{i+j=k} old[i]·tick[j] |
| `ProcessForecasters.ConvolutionNonNegative` | src/sprout/processforecaster.cc:68-80 | non-negative inputs give a non-negative output |
| `ProcessForecasters.ConvolutionUnit` | src/sprout/processforecaster.cc:96 | convolving the seed [1.0] with v yields v |
| `ProcessForecasters.ConvolutionTotal` | src/sprout/processforecaster.cc:68-80 | the sum of the output is the product of the input sums |
| `ProcessForecasters.ChainWidthClosedForm` | src/sprout/processforecaster.cc:96-107 | after n ticks a row has 1 + n·(tick width − 1) entries |
| `ProcessForecasters.ChainTotal` | src/sprout/processforecaster.cc:96-107 | a chain of convolutions sums to the product of the tick sums |
| `ProcessForecasters.ChainNonNegative` | src/sprout/processforecaster.cc:96-107 | a chain of non-negative ticks is non-negative |
| `ProcessForecasters.ChainAppend` | src/sprout/processforecaster.cc:96-107 | one more tick convolves the running row with that tick's vector |
| `ProcessForecasters.IntervalTableRectangular` | src/sprout/processforecaster.cc:82-115 | every row of the interval table has the same width |
| `ProcessForecasters.TickVectorIsCountProbability` | src/sprout/processforecaster.cc:99-103 | each tick entry is the count probability of the normalised component, and lies in [0, 1] |
| `ProcessForecasters.TickVectorNonNegative` | src/sprout/processforecaster.cc:99-103 | tick entries are non-negative |
| `ProcessForecasters.TickVectorsNonNegative` | src/sprout/processforecaster.cc:97-111 | every tick vector along the trajectory is non-negative |
| `ProcessForecasters.IntervalRowNonNegative` | src/sprout/processforecaster.cc:96-111 | interval rows are non-negative |
| `ProcessForecasters.IntervalRowOneTick` | src/sprout/processforecaster.cc:96-111 | with one tick, row i's count c is the likelihood at bin i's midpoint |
| `ProcessForecasters.TrajectoryStep` | src/sprout/processforecaster.cc:97-111 | tick 0 starts from the certain state; each later tick evolves the normalised belief after reading it |
| `ProcessForecasters.ChainStep` | src/sprout/processforecaster.cc:97-111 | each tick convolves the running row with the vector read before evolving |
| `ProcessForecasters.CollectTick` | src/sprout/processforecaster.cc:99-103 | the component is normalised, then its tick vector is read off the tick table |
| `ProcessForecasters.ComponentRow` | src/sprout/processforecaster.cc:96-111 | the tick loop for one component builds exactly its interval row |
| `ProcessForecasters.AdvanceTick` | src/sprout/processforecaster.cc:98-110 | one pass: read the tick vector, convolve, evolve; the component ends diffused with the cache set |
| `ProcessForecasters.MakeIntervalForecast` | src/sprout/processforecaster.cc:82-115 | the constructor builds exactly the interval table for the example's setting |
| `ProcessForecasters.CertainAreComponents` | src/sprout/processforecaster.cc:87-95 | the components from `make_components` satisfy what the tick loop needs |
| `ProcessForecasters.ComponentRows` | src/sprout/processforecaster.cc:93-113 | the loop over components builds the whole table |
| `ProcessForecasters.IntervalProbability` | src/sprout/processforecaster.cc:118-134 | the result is the ensemble-weighted entry, clamped to 1 |
| `ProcessForecasters.IntervalLowerQuantile` | src/sprout/processforecaster.cc:136-149 | the loop returns the quantile of the ensemble's count distribution |
| `ProcessForecasters.QuantileCountMonotone` | src/sprout/processforecaster.cc:136-149 | the quantile is non-decreasing in x; below the sentinel it is the first count whose running sum reaches x |
| `Receivers.SettingOfReceiverProcess` | src/sprout/receiver.cc:6-21 | any process laid out as the constructor's `Process(MAX_ARRIVAL_RATE, BROWNIAN_MOTION_RATE, OUTAGE_ESCAPE_RATE, NUM_BINS)` (grid from 0 with NUM_BINS+1 bins, cache grid over ±MAX_ARRIVAL_RATE, escape rate 5) gives each interval forecaster, built with TICK_LENGTH and MAX_ARRIVALS_PER_TICK, exactly the receiver's setting |
| `Receivers.AdvancedClock` | src/sprout/receiver.cc:28-35 | time moves by whole ticks; time + TICK_LENGTH ≥ target; time < target if any step was taken; within one tick it is a no-op |
| `Receivers.ObserveAtMostOnce` | src/sprout/receiver.cc:29-33 | within one call the count is observed in the first step only, then reset to 0 |
| `Receivers.QuietTicks` | src/sprout/receiver.cc:29-33 | with no count, advancing only evolves |
| `Receivers.QuantilesAt` | src/sprout/receiver.cc:49-51 | quantile i comes from forecaster i, in forecaster order |
| `Receivers.QuantileMeaning` | src/sprout/receiver.cc:50 | each reported count is the first whose running probability reaches 0.05, or the sentinel |
| `Receivers.IntervalForecastFits` | src/sprout/receiver.cc:15-21 | every forecaster's table fits the receiver's belief |
| `Receivers.Receiver.constructor` | src/sprout/receiver.cc:6-22 | a uniform normalized belief, count 0, and NUM_TICKS forecasters with the i-th covering i+1 ticks |
| `Receivers.Receiver.AdvanceTo` | src/sprout/receiver.cc:24-36 | requires time ≥ current time; the new state is the advanced one; the flag survives only a call that does no step |
| `Receivers.Receiver.AdvanceOneTick` | src/sprout/receiver.cc:29-34 | one step: evolve, observe a non-zero count and reset it, and move one tick on |
| `Receivers.Receiver.Recv` | src/sprout/receiver.cc:38-41 | the tick count goes up by exactly 1, nothing else changes |
| `Receivers.Receiver.Forecast` | src/sprout/receiver.cc:43-54 | the belief is normalised, and the forecast holds one quantile per forecaster, in order |
| `Receivers.MakeForecasters` | src/sprout/receiver.cc:15-21 | NUM_TICKS forecasters; the i-th is the interval table for i+1 ticks |
| `Receivers.MakeForecaster` | src/sprout/receiver.cc:16-19 | one forecaster is the interval table for n ticks |
| `Receivers.LowerQuantiles` | src/sprout/receiver.cc:49-51 | the loop collects each forecaster's quantile in order |
| `Receivers.UniformIsLive` | src/sprout/process.cc:11-17 | the uniform starting belief is strictly positive |
| `ForecastPackets.WithoutForecast` | src/network/sproutconn.h:19-23 | a packet built from payload alone carries no forecast and keeps the payload |
| `ForecastPackets.AddForecast` | src/network/sproutconn.h:25-29 | requires the serialised forecast to fit 65535 bytes; sets it and keeps the payload; `has_forecast` holds iff it is non-empty |
| `ForecastPackets.LittleEndian16` | src/network/sproutconn.h:38-39 | the two length bytes read back as the length |
| `ForecastPackets.Uint16At` | src/network/sproutconn.h:32 | the length field is below 65536 |
| `ForecastPackets.ToBytes` | src/network/sproutconn.h:36-46 | 2 bytes of size mod 65536, then the forecast when that is non-zero, then the data: 2 + \|forecast\| + \|data\| bytes when the forecast fits |
| `ForecastPackets.Parse` | src/network/sproutconn.h:31-34 | the input is the 2 length bytes, then the forecast, then the data; the forecast is no longer than announced |
| `ForecastPackets.ParseToBytes` | src/network/sproutconn.h:31-46 | parsing `tostring(p)` gives p back whenever the forecast fits 65535 bytes |
| `ForecastPackets.ToBytesParse` | src/network/sproutconn.h:31-46 | a datagram whose length field fits is the wire form of what is parsed from it |
| `ForecastPackets.NoForecastWire` | src/network/sproutconn.h:20-48 | a packet without a forecast is two zero bytes and the data, and parses back without a forecast |
| `ForecastPackets.ParseTruncated` | src/network/sproutconn.h:31-34 | a length past the end gives the forecast all remaining bytes and leaves the data empty |
| `ForecastPackets.OversizedForecastVanishes` | src/network/sproutconn.h:38-43 | a 65536-byte forecast gets a zero length field and is lost |
| `ForecastPackets.ForecastAsWritten` | src/network/sproutconn.h:50-58 | with assertions on, the parsed forecast; with them compiled out, the empty message |
| `ForecastPackets.ForecastLostWithoutAssertions` | src/network/sproutconn.h:50-58 | with assertions off, an attached non-empty forecast never reaches the receiver |
| `ForecastPackets.ForecastOf` | src/network/sproutconn.h:50-58 | the parse taken out of the assert returns what the packet carries |
| `ForecastPackets.ForecastSurvivesWire` | src/network/sproutconn.h:25-58 | an attached forecast is the one the receiver reads, and the payload comes with it |
| `SproutConnections.ElapsedBounds` | src/network/sproutconn.cc:55 | the whole ticks since the forecast arrived: tick·len ≤ now − since < (tick+1)·len |
| `SproutConnections.ClampedBelow` | src/network/sproutconn.cc:104-106 | clamping at 0 gives a non-negative value that is at least x, and x itself when x ≥ 0 |
| `SproutConnections.UpdatedAdvances` | src/network/sproutconn.cc:51-64 | the tick never decreases, stays below counts_size, and moves only to min(elapsed, counts_size − 1); the estimate stays ≥ 0 |
| `SproutConnections.DrainedSplit` | src/network/sproutconn.cc:58-63 | draining ticks i..j then j..k equals draining i..k |
| `SproutConnections.DrainedShrinks` | src/network/sproutconn.cc:58-63 | with non-negative counts, draining never increases the estimate |
| `SproutConnections.UpdatedLater` | src/network/sproutconn.cc:51-64 | updating at t1 and then at a later t2 equals updating once at t2 |
| `SproutConnections.QueuedBytesHead` | src/network/sproutconn.cc:100-102 | the queued bytes are the head's size plus the rest's |
| `SproutConnections.Allowance` | src/network/sproutconn.cc:87-106 | `window_size` never returns a negative value |
| `SproutConnections.WindowFor` | src/network/sproutconn.cc:83-118 | the window after the estimate update is non-negative |
| `SproutConnections.PopOpensWindow` | src/network/sproutconn.cc:100-106 | when the window is positive, popping the head widens it by exactly the head's size |
| `SproutConnections.Outgoing` | src/network/sproutconn.cc:29-39 | the payload is kept; a forecast is attached only after a flight ended and the forecast's time changed, and then it is attached |
| `SproutConnections.OutgoingDelivers` | src/network/sproutconn.cc:29-43 | the framed datagram parses back to the payload, carries the serialized forecast when one is attached, and carries none otherwise |
| `SproutConnections.FlightTimeToNext` | src/network/sproutconn.cc:135-144 | the head's time_to_next is either 0 or the hint it was queued with, and is the hint when no packet follows |
| `SproutConnections.Step` | src/network/sproutconn.cc:131-146 | one pass of the loop on the sender state pops the head, and the flight flag it leaves is time_to_next > 0; the tick stays inside the forecast |
| `SproutConnections.StepDelivers` | src/network/sproutconn.cc:29-43 | the step's datagram parses to the head's payload; it carries the local forecast, and the forecast time moves to it, exactly when the flight had ended and the forecast is newer; otherwise no forecast and the time is kept |
| `SproutConnections.HeadThenSend` | src/network/sproutconn.cc:131-146 | popping the head with its decided time_to_next, then `send`, gives `SentHead`: framed by `Outgoing`, estimate caught up and grown by the whole framed size, forecast-time rule, flight flag from time_to_next, queue popped |
| `SproutConnections.StepComposes` | src/network/sproutconn.cc:131-146 | what `SentHead` describes is exactly one `Step` of the loop |
| `SproutConnections.StepCaughtUp` | src/network/sproutconn.cc:47-64 | after a step the estimate is caught up: updating it again at the same time changes nothing |
| `SproutConnections.RunReleases` | src/network/sproutconn.cc:131-147 | k passes of the loop send k datagrams carrying the queue's first k payloads in order and leave the rest queued |
| `SproutConnections.OneMoreReleased` | src/network/sproutconn.cc:146 | a datagram with the k-th queued payload extends a log holding the first k − 1 to one holding the first k |
| `SproutConnections.RanStep` | src/network/sproutconn.cc:131-147 | one more pass from where k passes left the connection is k + 1 passes of `Run` |
| `SproutConnections.SproutConnection.constructor` | src/network/sproutconn.cc:5-25 | times 0, the last flight ended, estimate and tick 0, the connection's forecast, empty queue |
| `SproutConnections.SproutConnection.UpdateQueueEstimate` | src/network/sproutconn.cc:51-64 | the estimate becomes the drained one at the new tick; nothing else changes |
| `SproutConnections.SproutConnection.Send` | src/network/sproutconn.cc:27-49 | sends the framed payload with the forecast as `Outgoing` decides, adds its full size to the estimate, records the forecast time, and sets the flight flag from time_to_next; the 65535-byte bound of `add_forecast` is demanded only when the forecast is attached |
| `SproutConnections.SproutConnection.Recv` | src/network/sproutconn.cc:66-81 | returns the payload; a forecast replaces the operative one, resets the tick and sets the estimate to next_seq − received_or_lost; no forecast changes nothing |
| `SproutConnections.SproutConnection.WindowSize` | src/network/sproutconn.cc:83-118 | max(0, 1440·(counts[target] − counts[tick]) − estimate − queued bytes) after the update, with target = min(tick + 5, counts_size − 1) |
| `SproutConnections.SproutConnection.QueueToSend` | src/network/sproutconn.cc:120-123 | appends the payload to the back of the queue, which grows by its size; nothing else changes |
| `SproutConnections.SproutConnection.SendHead` | src/network/sproutconn.cc:133-146 | `SentHead` of the old state: the log grows by the head framed by `Outgoing` with time_to_next 0 when the next packet fits what the window leaves after this one and 20 bytes of overhead (the signed comparison, see Findings), else its queued hint; the estimate is the caught-up one plus the whole framed size, updated; the forecast time moves to an attached forecast's; the flight flag is time_to_next > 0; the queue loses its head |
| `SproutConnections.SproutConnection.TakeHead` | src/network/sproutconn.cc:134-144 | pops the head and returns its payload and `FlightTimeToNext`; the estimate is `CaughtUp` (the look-ahead's window_size updated it when a packet follows); nothing is sent and both flags are kept |
| `SproutConnections.SproutConnection.Tick` | src/network/sproutconn.cc:125-148 | `Ran`: the fields and the sent log are exactly `released` passes of `Run` from the old state caught up by the first window_size, so every datagram is pinned (framing, forecast, time_to_next, flags, estimate); it stops at the first packet larger than the window, or halts where `add_forecast`'s assertion would fail on an oversized local forecast; on an empty queue nothing changes, flags included |
| `SproutConnections.SproutConnection.SendNext` | src/network/sproutconn.cc:131-146 | one pass of the loop: the new fields and log are one `Step` of the old (`StepTo`), the next queued payload goes out after those already sent (`Released` grows by one), and the result is the loop guard for the new head |
| `SproutConnections.SproutConnection.HeadFits` | src/network/sproutconn.cc:131-132 | the loop guard holds iff the queue is non-empty and the window covers the head; window_size leaves the estimate updated to the clock when the queue is non-empty, and changes nothing else |
| `SproutConnections.SentInOrder` | src/network/sproutconn.cc:131-147 | sending the k-th queued payload extends the sent log with it, and the log matches the queue's first k+1 payloads |
| `SproutConnections.PayloadsSnoc` | src/network/sproutconn.cc:146 | the payloads of the log grow by the payload of the datagram sent |
| `SproutConnections.ContinuesFlightWraps` | src/network/sproutconn.cc:140-141 | a window of 20 after a 10-byte packet wraps below zero and predicts that a 1400-byte packet follows |
| `SproutConnections.ContinuesFlightAgrees` | src/network/sproutconn.cc:140-141 | the two agree whenever the window covers the sent packet plus 20 bytes |
| `DelayLines.ContentsAppend` | src/examples/cellsim.cc:137-153 | the contents of two queues joined are the two contents joined |
| `DelayLines.SortedTail` | src/examples/cellsim.cc:94-98 | popping the front keeps the schedule sorted |
| `DelayLines.Shifted` | src/examples/cellsim.cc:85-99 | the trace read: every offset plus the base timestamp, in the same order, so still sorted |
| `DelayLines.DelayLineTail` | src/examples/cellsim.cc:149-153 | popping the delay line keeps it in release order |
| `DelayLines.DelayLineAppend` | src/examples/cellsim.cc:137-142 | a packet written no earlier than the rest, with release = now + delay, keeps the line in release order |
| `DelayLines.DelayLineLater` | src/examples/cellsim.cc:144-146 | a later clock keeps the delay-line invariant |
| `DelayLines.ConservedMove` | src/examples/cellsim.cc:149-153 | moving the delay-line head to the ready queue loses and reorders nothing |
| `DelayLines.ConservedWrite` | src/examples/cellsim.cc:137-142 | writing appends to both the line and the written log |
| `DelayLines.ConservedRead` | src/examples/cellsim.cc:127-135 | reading the front of the queue out loses and reorders nothing |
| `CellSim.AccountedTrans` | src/examples/cellsim.cc:156-220 | the credit accounting composes across opportunities |
| `CellSim.SpendKeeps` | src/examples/cellsim.cc:184-219 | spending c bytes: limbo holds at most one packet, which has earned less than its size; total grows by c minus what limbo holds; used ≤ total growth; order and contents are kept |
| `CellSim.OpportunityKeeps` | src/examples/cellsim.cc:158-219 | each opportunity accounts for exactly 1500 bytes of credit, all of it spent within the opportunity |
| `CellSim.LimboOnlyWhenShort` | src/examples/cellsim.cc:197-217 | a packet goes into limbo iff the credit left does not cover its size |
| `CellSim.SpendShrinks` | src/examples/cellsim.cc:184-219 | spending never grows the ready queue, and filling limbo takes a packet from it |
| `CellSim.OpportunitiesKeep` | src/examples/cellsim.cc:156-220 | n opportunities account for n·1500 bytes, keep used ≤ total, and deliver in write order |
| `CellSim.OpportunitiesStep` | src/examples/cellsim.cc:156-159 | serving one more opportunity is one more step of the schedule loop |
| `CellSim.FlowPush` | src/examples/cellsim.cc:151 | a packet released to the ready queue joins the end of the flow |
| `CellSim.DelayQueue.constructor` | src/examples/cellsim.cc:67-102 | empty queues and counters, bin = now/1000, and the schedule is the shifted trace |
| `CellSim.DelayQueue.Write` | src/examples/cellsim.cc:137-142 | appends a packet with release = now + ms_delay; nothing else changes |
| `CellSim.DelayQueue.Read` | src/examples/cellsim.cc:127-135 | returns exactly the delivered list the tick leaves (what was unread, then what the due opportunities deliver), in order, and empties the list; the rest of the state is the tick's |
| `CellSim.DelayQueue.HandOut` | src/examples/cellsim.cc:131-134 | the delivered list is returned whole and cleared; nothing is lost |
| `CellSim.DelayQueue.WaitTime` | src/examples/cellsim.cc:104-125 | the state is what the tick leaves (`TickResult`); the result is the minimum of the delay wait and the schedule wait, positive, and INT_MAX when both are empty |
| `CellSim.DelayQueue.Tick` | src/examples/cellsim.cc:144-228 | `TickResult`: exactly the due packets leave the front of the delay line, exactly the opportunities ≤ now leave the front of the schedule, ready queue, limbo and delivered list are `Served` of those, and the counters roll or keep what serving left |
| `CellSim.DelayQueue.Release` | src/examples/cellsim.cc:144-153 | the clock moves to now, and exactly the due packets leave the front of the delay line, in order, for the back of the ready queue (`DrainedBy`); limbo, the delivered list, the counters and the schedule are unchanged |
| `CellSim.DelayQueue.Serve` | src/examples/cellsim.cc:155-227 | `ServedBy`: exactly the opportunities ≤ now leave the front of the schedule and are served in order by `Opportunity`, then the counters roll; the delay line is unchanged |
| `CellSim.TickComposes` | src/examples/cellsim.cc:144-228 | releasing, then serving, leaves what `TickResult` describes |
| `CellSim.Served` | src/examples/cellsim.cc:149-218 | released packets join the back of the ready queue, then each opportunity is served; capacity plus limbo's credit grows by 1500 bytes per opportunity, use by no more than capacity, and the flow is kept |
| `CellSim.DelayQueue.MoveReleased` | src/examples/cellsim.cc:148-153 | the due prefix of the delay line moves to the ready queue in FIFO order; what stays is not yet due |
| `CellSim.DelayQueue.MoveHead` | src/examples/cellsim.cc:151-152 | one due packet moves from the delay line to the back of the ready queue |
| `CellSim.DelayQueue.ServeDue` | src/examples/cellsim.cc:155-220 | consumes exactly the opportunities ≤ now from the front of the schedule, serving each by `Opportunity` |
| `CellSim.DelayQueue.ServeOne` | src/examples/cellsim.cc:159-219 | one opportunity: limbo first, then the ready queue, with 1500 bytes of credit |
| `CellSim.DelayQueue.PayLimbo` | src/examples/cellsim.cc:160-181 | the limbo step: deliver the packet if earned + 1500 covers its size, else add all the credit to it |
| `CellSim.DelayQueue.SpendOne` | src/examples/cellsim.cc:184-219 | one pass of the regular loop: underflow, a whole delivery, or a new limbo packet |
| `CellSim.DelayQueue.AdvanceBins` | src/examples/cellsim.cc:222-227 | the bin moves to now/1000 when that is later, and both counters are zeroed then |
| `CellProxy.DeliverKeepsFlow` | src/examples/cellproxy.cc:154-156 | delivering the front of the ready queue loses and reorders nothing |
| `CellProxy.ReleaseExtendsFlow` | src/examples/cellproxy.cc:147 | a released packet joins the end of the flow |
| `CellProxy.DelayQueue.constructor` | src/examples/cellproxy.cc:55-89 | empty queues and counters, bin = now/1000, and the schedule is the shifted trace |
| `CellProxy.DelayQueue.WaitTime` | src/examples/cellproxy.cc:91-110 | prunes as `PruneSchedule` does (the schedule loses exactly its entries before now, each counted); 100 ms by default; 0 iff a packet is due or an opportunity is exactly now; otherwise the minimum of the two waits |
| `CellProxy.DelayQueue.PruneSchedule` | src/examples/cellproxy.cc:112-120 | removes exactly the entries strictly before now, one occurrence counted for each |
| `CellProxy.DelayQueue.Read` | src/examples/cellproxy.cc:122-130 | returns exactly the delivered list the tick leaves (what was unread, then the packets served at now), in order, and clears it; the rest of the state is the tick's |
| `CellProxy.DelayQueue.HandOut` | src/examples/cellproxy.cc:126-127 | the delivered list is returned whole and cleared; nothing is lost |
| `CellProxy.DelayQueue.Write` | src/examples/cellproxy.cc:132-137 | appends a packet with release = now + ms_delay; nothing else changes |
| `CellProxy.DelayQueue.Tick` | src/examples/cellproxy.cc:139-169 | `TickResult`: opportunities before now are dropped and counted, exactly the due packets move in order to the ready queue, only opportunities timestamped exactly now carry packets (one each, ready front with schedule front, until either runs out), and the counters roll or count pruned, served and used |
| `CellProxy.DelayQueue.Arrive` | src/examples/cellproxy.cc:141-149 | `Pruned` and `Moved`: the schedule loses exactly its entries before now, each counted, and stays sorted; exactly the due packets move in order to the ready queue |
| `CellProxy.DelayQueue.Serve` | src/examples/cellproxy.cc:151-168 | `ServedNow`: each due opportunity carries the ready front, until either queue runs out or the next opportunity is later, then the counters roll |
| `CellProxy.ScheduleComposes` | src/examples/cellproxy.cc:141-153 | after pruning leaves a sorted schedule with nothing before now, every opportunity the serving loop spends is timestamped exactly now, and what is left starts no earlier than now (`SpentAtNow`) |
| `CellProxy.TickComposes` | src/examples/cellproxy.cc:139-169 | the two halves, with `SpentAtNow`, give `TickResult` |
| `CellProxy.DelayQueue.MoveReleased` | src/examples/cellproxy.cc:145-149 | the due prefix of the delay line moves to the ready queue in FIFO order |
| `CellProxy.DelayQueue.MoveHead` | src/examples/cellproxy.cc:147-148 | one due packet moves to the back of the ready queue |
| `CellProxy.DelayQueue.DeliverDue` | src/examples/cellproxy.cc:151-161 | k packets leave on k opportunities, each ≤ now, in write order, pairing the ready front with the schedule front; both counters grow by k |
| `CellProxy.DelayQueue.DeliverOne` | src/examples/cellproxy.cc:154-159 | one whole packet per opportunity, whatever its size, and one used occurrence |
| `CellProxy.DelayQueue.AdvanceBins` | src/examples/cellproxy.cc:163-168 | the bin moves to now/1000 when that is later, and both counters are zeroed then |

## Left out

- `main()` of cellsim.cc and cellproxy.cc: sockets, `select` and command-line glue.
- The trace file reading in both `DelayQueue` constructors (`fopen`/`fscanf`). The trace is the `offsets` argument, which the constructor's assert requires to be sorted.
- `fprintf` logging, including the per-delivery latency (`now - entry_time`) and the per-second utilisation lines. The `_name` field exists only for logging.
- `timestamp()` is a `now` argument. One `now` is used for each operation: `wait_time` in cellproxy reads the clock three times (cellproxy.cc:96, then :114 inside `prune_schedule`, then :105) and `tick` reads it again.
- Boost's Poisson pmf (src/sprout/mypoisson.hh) and normal CDF are function arguments. The model requires the pmf to lie in [0, 1] (`IsCountPmf`); rate 0 never reaches it, since `poissonpdf` pins that case itself. The further hypotheses below are stated where the model needs them.
- Receivers.Receiver.Calibrated assumes `PositiveAtPositiveRates`: the pmf is positive at every positive rate. Without it an observation could zero the whole belief, and the next `normalize` would divide by zero, which the model cannot express with exact reals.
- ProcessForecasters.Spreads assumes a non-decreasing CDF table and `KeepsMass` (diffusion keeps some mass in every bin's target). `MakeIntervalForecast` and the `Receiver` require it so that every `normalize` the interval constructor runs divides by a positive total.
- Processes.Process.Normalize requires a non-zero total when the flag is clear. The source divides by whatever the total is; a zero total gives NaN weights, which reals do not have.
- ProcessForecasters.MakeIntervalForecast requires `tickUpperLimit >= 1 || numTicks <= 1`. The source crashes otherwise. With a tick limit of 0, tick 0 convolves `[1.0]` with an empty tick vector, which gives an empty row. Tick 1 then convolves two empty vectors, and `ret(0 + 0 - 1)` at processforecaster.cc:71 wraps in `size_t`, so the vector constructor throws `length_error`. `Convolve` (`|a| + |b| >= 1`) and `Chain` (`width >= 1 || |ticks| <= 1`) exclude that throw in the same way.
- Processes.Process.Evolve: `sqrt` is not modelled; the caller passes the deviation, with `DeviationFor` stating deviation² = rate²·time.
- Floating-point rounding. Reals are exact, so the `1e-10` tolerance asserts become exact facts.
- Protobuf: `SerializeAsString`, `ParseFromString`, and the protobuf constructor and `to_protobuf` of `ProcessForecastInterval` (src/sprout/processforecaster.cc:152-174). Serialised forecasts are opaque bytes, and serialise and parse are function arguments.
- `Connection` (src/network/network.h) is not part of this model: crypto, sockets, RTT and port hopping. Its `send` becomes an append to the `sent` log, and its forecast, next sequence number and tick length are arguments.
- Integer widths in sproutconn.cc are unbounded integers. The `size_t` wrap at line 141 is modelled on its own (see Findings); the operations use the corrected comparison:
  - `1440 * counts` overflowing `int`;
  - `uint64_t` subtraction in the tick computation;
  - the `int` casts of the byte counts.
- CellSim.DelayQueue.WaitTime: the `uint64_t` differences cast to `int` are taken as exact. The model does not say what happens to waits beyond INT_MAX.
- CellProxy.DelayQueue.WaitTime requires a schedule entry at or after now whenever packets wait. The source reads the front of an empty queue in that case.
- SproutConnections.SproutConnection.Tick: when it halts on an oversized local forecast, the model stops before popping the head; the source's assertion fires inside `send`, after the pop and the look-ahead, and the program ends there. Builds with assertions off, which would send the forecast with its length narrowed to 16 bits (`ForecastPackets.OversizedForecastVanishes`), are not modelled by `Tick`.
- SproutConnections.SproutConnection.SendHead decides time_to_next with the corrected signed comparison `ContinuesFlight`, not the `size_t` arithmetic of line 141 that the source executes. `ContinuesFlightAsWritten` and `ContinuesFlightWraps` model that line as written: the two differ only when the window is smaller than the packet just sent plus 20 bytes (`ContinuesFlightAgrees`).
- SproutConnections.SproutConnection.Recv requires the forecast to parse and `received_or_lost_count ≤ next_seq`. The source asserts both.
- SproutConnections.SproutConnection.WindowSize requires a non-empty counts vector. The source indexes `counts_size() - 1`.
- src/sprout/receiver.hh declares a different constructor, `recv` and time type than src/sprout/receiver.cc. The model follows the `.cc`: `double` time, `recv(void)` and a vector of counts. `warp_to`, `_cached_forecast` and `_expected_seq` exist only in the header and are left out.
- src/statesync/flood.h is a no-op stub and is not part of this model.

## Findings

| source | as written | input that shows it | evidently intended | confidence | as-written member | corrected member |
|---|---|---|---|---|---|---|
| src/network/sproutconn.h:55 | the forecast is parsed inside `assert`, so a build with `NDEBUG` skips the parse and returns an empty message | any packet with a non-empty forecast, in a build with assertions off | parse, then assert success | not executed | `ForecastPackets.ForecastAsWritten`, `ForecastPackets.ForecastLostWithoutAssertions` | `ForecastPackets.ForecastOf`, `ForecastPackets.ForecastSurvivesWire` |
| src/network/sproutconn.cc:141 | `window_size() - s.size() - 20` is unsigned, so a window smaller than the sent size plus 20 wraps to a huge value and predicts that the next packet follows | window 20 after a 10-byte packet, next packet 1400 bytes | signed comparison: the next packet follows only if the rest of the window covers it | not executed | `SproutConnections.ContinuesFlightAsWritten`, `SproutConnections.ContinuesFlightWraps` | `SproutConnections.ContinuesFlight`, `SproutConnections.ContinuesFlightAgrees` |
