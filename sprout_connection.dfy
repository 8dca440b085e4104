/**
 * SproutConnection: the sender side of Sprout. It keeps the forecast the
 * far end last sent back, estimates how many of its own bytes are still
 * queued in the network, and from those two decides how much of its
 * outgoing queue it may release on each tick.
 */
module SproutConnections {
  import opened Bytes
  import opened ForecastPackets

  newtype uint16 = x: int | 0 <= x < 0x1_0000

  /** Ticks ahead of the current one whose forecast deliveries the window may use. */
  const TARGET_DELAY_TICKS: int := 5
  /** Bytes assumed per forecast packet. */
  const PACKET_BYTES: int := 1440
  /** Per-packet overhead allowed for when deciding whether the next packet follows at once. */
  const OVERHEAD_BYTES: int := 20
  /** size_t arithmetic wraps modulo 2^64. */
  const SIZE_T_MODULUS: int := 0x1_0000_0000_0000_0000

  /** An entry of the outgoing queue: a payload and the time-to-next hint it was queued with. */
  datatype Queued = Queued(payload: seq<byte>, timeToNext: uint16)

  /** One datagram handed to the underlying connection. */
  datatype Datagram = Datagram(bytes: seq<byte>, timeToNext: uint16)

  /** Where the sender stands in the operative forecast, and how many bytes it believes are in flight. */
  datatype Estimate = Estimate(tick: int, bytes: int)

  /** Whole ticks since the operative forecast arrived. */
  function Elapsed(now: nat, since: nat, tickLength: nat): nat
    requires since <= now && tickLength > 0
  {
    (now - since) / tickLength
  }

  /** The elapsed count is the number of whole ticks that fit in now - since. */
  lemma ElapsedBounds(now: nat, since: nat, tickLength: nat)
    requires since <= now && tickLength > 0
    ensures Elapsed(now, since, tickLength) * tickLength <= now - since < (Elapsed(now, since, tickLength) + 1) * tickLength
  {
  }

  function ClampedBelow(x: int): (r: int)
    ensures r >= 0 && r >= x && (x >= 0 ==> r == x)
  {
    if x < 0 then 0 else x
  }

  /**
   * The byte estimate once ticks lo..hi-1 have passed: each removes the
   * bytes the forecast said it would deliver, and the estimate never goes
   * below zero.
   */
  function Drained(bytes: int, counts: seq<int>, lo: int, hi: int): (r: int)
    requires 0 <= lo <= hi <= |counts|
    ensures bytes >= 0 ==> r >= 0
    decreases hi - lo
  {
    if lo == hi then bytes
    else Drained(ClampedBelow(bytes - PACKET_BYTES * counts[lo]), counts, lo + 1, hi)
  }

  /**
   * The estimate after catching up with the clock: the tick moves hi the
   * elapsed tick, held at the forecast's last entry, and never backwards.
   */
  function Updated(e: Estimate, counts: seq<int>, elapsed: nat): (r: Estimate)
    requires 0 <= e.tick
  {
    var target := if elapsed < |counts| - 1 then elapsed else |counts| - 1;
    if e.tick < target then Estimate(target, Drained(e.bytes, counts, e.tick, target)) else e
  }

  /** The tick only moves forward, hi the elapsed tick bounded by the forecast, and the estimate stays non-negative. */
  lemma {:induction false} UpdatedAdvances(e: Estimate, counts: seq<int>, elapsed: nat)
    requires 0 <= e.tick && e.bytes >= 0
    ensures var r := Updated(e, counts, elapsed);
            r.tick >= e.tick && r.bytes >= 0
            && (r.tick == e.tick || (r.tick == elapsed || r.tick == |counts| - 1))
            && (r.tick > e.tick ==> r.tick <= elapsed && r.tick < |counts|)
  {
  }

  /** Draining in two stretches is draining once over both. */
  lemma {:induction false} DrainedSplit(bytes: int, counts: seq<int>, i: int, j: int, k: int)
    requires 0 <= i <= j <= k <= |counts|
    ensures Drained(Drained(bytes, counts, i, j), counts, j, k) == Drained(bytes, counts, i, k)
    decreases j - i
  {
    if i < j {
      DrainedSplit(ClampedBelow(bytes - PACKET_BYTES * counts[i]), counts, i + 1, j, k);
    }
  }

  /** With non-negative forecast counts, draining never raises the estimate. */
  lemma {:induction false} DrainedShrinks(bytes: int, counts: seq<int>, lo: int, hi: int)
    requires 0 <= lo <= hi <= |counts| && bytes >= 0
    requires forall i :: 0 <= i < |counts| ==> counts[i] >= 0
    ensures 0 <= Drained(bytes, counts, lo, hi) <= bytes
    decreases hi - lo
  {
    if lo < hi {
      DrainedShrinks(ClampedBelow(bytes - PACKET_BYTES * counts[lo]), counts, lo + 1, hi);
    }
  }

  /**
   * Catching up at one time and again at a later time ends where catching
   * up once at the later time does: how often the estimate is updated does
   * not matter, and updating twice at the same time changes nothing.
   */
  lemma {:induction false} UpdatedLater(e: Estimate, counts: seq<int>, t1: nat, t2: nat)
    requires 0 <= e.tick && t1 <= t2
    ensures Updated(Updated(e, counts, t1), counts, t2) == Updated(e, counts, t2)
  {
    var m := Updated(e, counts, t1);
    var target2 := if t2 < |counts| - 1 then t2 else |counts| - 1;
    if e.tick < m.tick && m.tick < target2 {
      DrainedSplit(e.bytes, counts, e.tick, m.tick, target2);
    }
  }

  /** Total payload bytes in a queue. */
  function QueuedBytes(q: seq<Queued>): (r: nat)
  {
    if q == [] then 0 else QueuedBytes(q[..|q| - 1]) + |q[|q| - 1].payload|
  }

  /** The head of a queue contributes its size to the total. */
  lemma {:induction false} QueuedBytesHead(q: seq<Queued>)
    requires q != []
    ensures QueuedBytes(q) == |q[0].payload| + QueuedBytes(q[1..])
  {
    if |q| > 1 {
      assert q[..|q| - 1][1..] == q[1..][..|q| - 2];
      QueuedBytesHead(q[..|q| - 1]);
    } else {
      assert q[..0] == [] && q[1..] == [];
    }
  }

  /**
   * What the sender may release: the bytes forecast to be delivered between
   * the current tick and the target tick (TARGET_DELAY_TICKS ahead, or the
   * forecast's last tick), less what is believed in flight and what is
   * already queued, and never negative.
   */
  function Allowance(counts: seq<int>, e: Estimate, queued: int): (r: int)
    requires 0 <= e.tick < |counts|
    ensures r >= 0
  {
    var target := if e.tick + TARGET_DELAY_TICKS >= |counts| then |counts| - 1 else e.tick + TARGET_DELAY_TICKS;
    ClampedBelow(PACKET_BYTES * (counts[target] - counts[e.tick]) - e.bytes - queued)
  }

  /** The window window_size reports: the allowance once the estimate has caught up. */
  function WindowFor(e: Estimate, counts: seq<int>, elapsed: nat, q: seq<Queued>): (r: int)
    requires 0 <= e.tick < |counts|
    ensures r >= 0
  {
    Allowance(counts, Updated(e, counts, elapsed), QueuedBytes(q))
  }

  /**
   * Taking a packet off the queue opens the window by exactly its size,
   * unless the allowance was clamped at zero.
   */
  lemma {:induction false} PopOpensWindow(e: Estimate, counts: seq<int>, elapsed: nat, q: seq<Queued>)
    requires 0 <= e.tick < |counts| && q != []
    requires WindowFor(e, counts, elapsed, q) > 0
    ensures WindowFor(e, counts, elapsed, q[1..]) == WindowFor(e, counts, elapsed, q) + |q[0].payload|
  {
    QueuedBytesHead(q);
  }

  /** The time-to-next decision of the loop in tick, as written: the subtraction is done in size_t. */
  predicate ContinuesFlightAsWritten(window: int, sentSize: nat, nextSize: nat)
  {
    (window - sentSize - OVERHEAD_BYTES) % SIZE_T_MODULUS >= nextSize
  }

  /** The decision as intended: the next packet fits in what the window leaves after this one and the overhead. */
  predicate ContinuesFlight(window: int, sentSize: nat, nextSize: nat)
  {
    window - sentSize - OVERHEAD_BYTES >= nextSize
  }

  /** Both decisions agree whenever the window covers the packet just sent and the overhead. */
  lemma {:induction false} ContinuesFlightAgrees(window: int, sentSize: nat, nextSize: nat)
    requires sentSize + OVERHEAD_BYTES <= window < SIZE_T_MODULUS
    ensures ContinuesFlightAsWritten(window, sentSize, nextSize) <==> ContinuesFlight(window, sentSize, nextSize)
  {
  }

  /**
   * A reachable state where they differ: forecast counts [0, 1], 20 bytes in
   * flight, and a 10-byte packet queued ahead of a 1400-byte one. The
   * 10-byte packet fits, and once it is popped the window is 20 bytes; the
   * wrapped subtraction then says the 1400-byte packet follows at once,
   * though it does not fit.
   */
  lemma {:induction false} ContinuesFlightWraps(small: seq<byte>, large: seq<byte>, t1: uint16, t2: uint16)
    requires |small| == 10 && |large| == 1400
    ensures var q := [Queued(small, t1), Queued(large, t2)];
            var e := Estimate(0, 20);
            WindowFor(e, [0, 1], 0, q) >= |small|
            && WindowFor(e, [0, 1], 0, q[1..]) == 20
            && ContinuesFlightAsWritten(20, |small|, |large|)
            && !ContinuesFlight(20, |small|, |large|)
  {
    var q := [Queued(small, t1), Queued(large, t2)];
    assert q[..1] == [Queued(small, t1)] && q[..1][..0] == [];
    assert q[1..] == [Queued(large, t2)] && q[1..][..0] == [];
    assert QueuedBytes(q[..1]) == 10 && QueuedBytes(q) == 1410 && QueuedBytes(q[1..]) == 1400;
    assert (20 - 10 - OVERHEAD_BYTES) % SIZE_T_MODULUS == SIZE_T_MODULUS - 10;
  }

  /** The packet send builds: a forecast rides along only on the first packet of a flight, and only when it is new. */
  function Outgoing(s: seq<byte>, endedFlight: bool, sentForecastTime: nat, fc: DeliveryForecast,
                    serialize: DeliveryForecast -> seq<byte>): (p: ForecastPacket)
    requires endedFlight && fc.time != sentForecastTime ==> |serialize(fc)| <= MAX_FORECAST_BYTES
    ensures p.data == s
    ensures HasForecast(p) ==> endedFlight && fc.time != sentForecastTime
    ensures endedFlight && fc.time != sentForecastTime ==> p.forecast == serialize(fc)
  {
    if endedFlight && fc.time != sentForecastTime then AddForecast(WithoutForecast(s), serialize(fc))
    else WithoutForecast(s)
  }

  /** The payload the far end reads out of a datagram. */
  function Payload(d: Datagram): seq<byte>
  {
    if |d.bytes| >= 2 then Parse(d.bytes).data else []
  }

  /**
   * What the far end reads back from the packet send builds: the payload,
   * and the local forecast exactly when one was attached.
   */
  lemma {:induction false} OutgoingDelivers(s: seq<byte>, endedFlight: bool, sentForecastTime: nat, fc: DeliveryForecast,
                                            serialize: DeliveryForecast -> seq<byte>, timeToNext: uint16)
    requires endedFlight && fc.time != sentForecastTime ==> |serialize(fc)| <= MAX_FORECAST_BYTES
    ensures var d := Datagram(ToBytes(Outgoing(s, endedFlight, sentForecastTime, fc, serialize)), timeToNext);
            Payload(d) == s
            && (endedFlight && fc.time != sentForecastTime ==> Parse(d.bytes).forecast == serialize(fc))
            && (!(endedFlight && fc.time != sentForecastTime) ==> !HasForecast(Parse(d.bytes)))
  {
    ParseToBytes(Outgoing(s, endedFlight, sentForecastTime, fc, serialize));
  }

  function Payloads(ds: seq<Datagram>): seq<seq<byte>>
  {
    if ds == [] then [] else Payloads(ds[..|ds| - 1]) + [Payload(ds[|ds| - 1])]
  }

  function Strings(q: seq<Queued>): seq<seq<byte>>
  {
    if q == [] then [] else Strings(q[..|q| - 1]) + [q[|q| - 1].payload]
  }

  /** The part of the sender tick reads and changes: the estimate, the flight flag, the forecast last attached and the queue. */
  datatype Sender = Sender(estimate: Estimate, endedFlight: bool, forecastTime: nat, queue: seq<Queued>)

  /** The head of the queue can go out: the estimate sits inside the forecast, and a forecast it would carry fits. */
  predicate CanSend(st: Sender, counts: seq<int>, fc: DeliveryForecast, serialize: DeliveryForecast -> seq<byte>)
  {
    st.queue != [] && 0 <= st.estimate.tick < |counts|
    && (st.endedFlight && fc.time != st.forecastTime ==> |serialize(fc)| <= MAX_FORECAST_BYTES)
  }

  /**
   * The time-to-next the head goes out with: 0 when the window left after
   * it (the queue already popped) covers the next packet and the overhead,
   * else the hint it was queued with.
   */
  function FlightTimeToNext(st: Sender, counts: seq<int>, elapsed: nat): (ttn: uint16)
    requires st.queue != [] && 0 <= st.estimate.tick < |counts|
    ensures ttn == 0 || ttn == st.queue[0].timeToNext
    ensures |st.queue| == 1 ==> ttn == st.queue[0].timeToNext
  {
    var rest := st.queue[1..];
    if rest != [] && ContinuesFlight(WindowFor(st.estimate, counts, elapsed, rest), |st.queue[0].payload|, |rest[0].payload|)
    then 0 else st.queue[0].timeToNext
  }

  /** The estimate send starts from: caught up with the clock by the look-ahead's window_size, if there was one. */
  function CaughtUp(st: Sender, counts: seq<int>, elapsed: nat): (e: Estimate)
    requires 0 <= st.estimate.tick
  {
    if |st.queue| > 1 then Updated(st.estimate, counts, elapsed) else st.estimate
  }

  /**
   * One pass of tick's loop on the sender state: pop the head, give it
   * time-to-next 0 when the window left after it covers the next packet
   * and the overhead, frame it as send does, and count the framed bytes
   * as in flight.
   */
  function Step(st: Sender, counts: seq<int>, elapsed: nat, fc: DeliveryForecast,
                serialize: DeliveryForecast -> seq<byte>): (r: (Sender, Datagram))
    requires CanSend(st, counts, fc, serialize)
    ensures r.0.queue == st.queue[1..] && r.0.endedFlight == (r.1.timeToNext > 0)
    ensures 0 <= r.0.estimate.tick < |counts|
  {
    var ttn := FlightTimeToNext(st, counts, elapsed);
    var caughtUp := CaughtUp(st, counts, elapsed);
    var p := Outgoing(st.queue[0].payload, st.endedFlight, st.forecastTime, fc, serialize);
    (Sender(Updated(Estimate(caughtUp.tick, caughtUp.bytes + |ToBytes(p)|), counts, elapsed), ttn > 0,
            if st.endedFlight && fc.time != st.forecastTime then fc.time else st.forecastTime, st.queue[1..]),
     Datagram(ToBytes(p), ttn))
  }

  /**
   * What the far end reads from a step's datagram: the head's payload, and
   * the local forecast exactly when the flight had ended and that forecast
   * is newer than the one last attached, after which it counts as attached.
   */
  lemma {:induction false} StepDelivers(st: Sender, counts: seq<int>, elapsed: nat, fc: DeliveryForecast,
                                        serialize: DeliveryForecast -> seq<byte>)
    requires CanSend(st, counts, fc, serialize)
    ensures var r := Step(st, counts, elapsed, fc, serialize);
            |r.1.bytes| >= 2 && Parse(r.1.bytes).data == st.queue[0].payload
            && (st.endedFlight && fc.time != st.forecastTime ==>
                  Parse(r.1.bytes).forecast == serialize(fc) && r.0.forecastTime == fc.time)
            && (!(st.endedFlight && fc.time != st.forecastTime) ==>
                  !HasForecast(Parse(r.1.bytes)) && r.0.forecastTime == st.forecastTime)
  {
    ParseToBytes(Outgoing(st.queue[0].payload, st.endedFlight, st.forecastTime, fc, serialize));
  }

  /** From st, one pass of the loop leaves the sender in st1 and appends its datagram to the log. */
  predicate StepTo(st: Sender, counts: seq<int>, elapsed: nat, fc: DeliveryForecast,
                   serialize: DeliveryForecast -> seq<byte>, sent: seq<Datagram>, st1: Sender, sent1: seq<Datagram>)
  {
    CanSend(st, counts, fc, serialize)
    && var r := Step(st, counts, elapsed, fc, serialize);
    st1 == r.0 && sent1 == sent + [r.1]
  }

  /**
   * What send_head does from st, as send states it: the head goes out
   * framed by Outgoing with the time-to-next decided by the look-ahead,
   * the estimate is the caught-up one grown by the full framed size, the
   * forecast time moves to the attached forecast's, the flight flag
   * follows time-to-next, and the queue loses its head.
   */
  predicate SentHead(st: Sender, counts: seq<int>, elapsed: nat, fc: DeliveryForecast,
                     serialize: DeliveryForecast -> seq<byte>, sent: seq<Datagram>, st1: Sender, sent1: seq<Datagram>)
  {
    CanSend(st, counts, fc, serialize)
    && var p := Outgoing(st.queue[0].payload, st.endedFlight, st.forecastTime, fc, serialize);
    var ttn := FlightTimeToNext(st, counts, elapsed);
    var e := CaughtUp(st, counts, elapsed);
    sent1 == sent + [Datagram(ToBytes(p), ttn)]
    && st1.estimate == Updated(Estimate(e.tick, e.bytes + |ToBytes(p)|), counts, elapsed)
    && st1.forecastTime == (if st.endedFlight && fc.time != st.forecastTime then fc.time else st.forecastTime)
    && st1.endedFlight == (ttn > 0) && st1.queue == st.queue[1..]
  }

  /** Popping the head with its time-to-next decided, then sending it, is what send_head does. */
  lemma {:induction false} HeadThenSend(st: Sender, mid: Sender, st1: Sender, s: seq<byte>, ttn: uint16,
                                        counts: seq<int>, elapsed: nat, fc: DeliveryForecast,
                                        serialize: DeliveryForecast -> seq<byte>, sent: seq<Datagram>, sent1: seq<Datagram>)
    requires CanSend(st, counts, fc, serialize)
    requires s == st.queue[0].payload && mid.queue == st.queue[1..]
    requires mid.endedFlight == st.endedFlight && mid.forecastTime == st.forecastTime
    requires ttn == FlightTimeToNext(st, counts, elapsed) && mid.estimate == CaughtUp(st, counts, elapsed)
    requires var p := Outgoing(s, mid.endedFlight, mid.forecastTime, fc, serialize);
             sent1 == sent + [Datagram(ToBytes(p), ttn)]
             && st1.estimate == Updated(Estimate(mid.estimate.tick, mid.estimate.bytes + |ToBytes(p)|), counts, elapsed)
    requires st1.forecastTime
             == (if mid.endedFlight && fc.time != mid.forecastTime then fc.time else mid.forecastTime)
    requires st1.endedFlight == (ttn > 0) && st1.queue == mid.queue
    ensures SentHead(st, counts, elapsed, fc, serialize, sent, st1, sent1)
  {
  }

  /** send_head from st is one step of the loop. */
  lemma {:induction false} StepComposes(st: Sender, counts: seq<int>, elapsed: nat, fc: DeliveryForecast,
                                        serialize: DeliveryForecast -> seq<byte>, sent: seq<Datagram>,
                                        st1: Sender, sent1: seq<Datagram>)
    requires SentHead(st, counts, elapsed, fc, serialize, sent, st1, sent1)
    ensures StepTo(st, counts, elapsed, fc, serialize, sent, st1, sent1)
  {
  }

  /** A step leaves the estimate caught up with the clock: window_size right after it changes nothing. */
  lemma {:induction false} StepCaughtUp(st: Sender, counts: seq<int>, elapsed: nat, fc: DeliveryForecast,
                                        serialize: DeliveryForecast -> seq<byte>, sent: seq<Datagram>,
                                        st1: Sender, sent1: seq<Datagram>)
    requires StepTo(st, counts, elapsed, fc, serialize, sent, st1, sent1)
    ensures Updated(st1.estimate, counts, elapsed) == st1.estimate
  {
    var e := CaughtUp(st, counts, elapsed);
    var p := Outgoing(st.queue[0].payload, st.endedFlight, st.forecastTime, fc, serialize);
    UpdatedLater(Estimate(e.tick, e.bytes + |ToBytes(p)|), counts, elapsed, elapsed);
  }

  /** k passes of the loop can be made from st without an oversized forecast. */
  predicate CanRun(st: Sender, counts: seq<int>, elapsed: nat, fc: DeliveryForecast,
                   serialize: DeliveryForecast -> seq<byte>, k: nat)
    decreases k, 0
  {
    k == 0
    || (CanRun(st, counts, elapsed, fc, serialize, k - 1)
        && CanSend(Run(st, counts, elapsed, fc, serialize, k - 1).0, counts, fc, serialize))
  }

  /** The sender state after k passes of tick's loop, and the datagrams they send in order. */
  function Run(st: Sender, counts: seq<int>, elapsed: nat, fc: DeliveryForecast,
               serialize: DeliveryForecast -> seq<byte>, k: nat): (r: (Sender, seq<Datagram>))
    requires CanRun(st, counts, elapsed, fc, serialize, k)
    decreases k, 1
  {
    if k == 0 then (st, [])
    else
      var before := Run(st, counts, elapsed, fc, serialize, k - 1);
      var next := Step(before.0, counts, elapsed, fc, serialize);
      (next.0, before.1 + [next.1])
  }

  /**
   * k passes of the loop release the queue's first k payloads in order,
   * one datagram each, and leave the rest queued.
   */
  lemma {:induction false} RunReleases(st: Sender, counts: seq<int>, elapsed: nat, fc: DeliveryForecast,
                                       serialize: DeliveryForecast -> seq<byte>, k: nat)
    requires CanRun(st, counts, elapsed, fc, serialize, k)
    ensures k <= |st.queue| && |Run(st, counts, elapsed, fc, serialize, k).1| == k
    ensures Run(st, counts, elapsed, fc, serialize, k).0.queue == st.queue[k..]
    ensures Payloads(Run(st, counts, elapsed, fc, serialize, k).1) == Strings(st.queue[..k])
    decreases k
  {
    if k > 0 {
      RunReleases(st, counts, elapsed, fc, serialize, k - 1);
      var before := Run(st, counts, elapsed, fc, serialize, k - 1);
      var next := Step(before.0, counts, elapsed, fc, serialize);
      assert Run(st, counts, elapsed, fc, serialize, k) == (next.0, before.1 + [next.1]);
      assert st.queue[k - 1..][1..] == st.queue[k..];
      StepDelivers(before.0, counts, elapsed, fc, serialize);
      OneMoreReleased(st.queue, k, before.1, next.1);
    }
  }

  /** The connection's fields and sent log are those of k passes of the loop from st0, after the datagrams sent before. */
  predicate Ran(st0: Sender, counts: seq<int>, elapsed: nat, fc: DeliveryForecast, serialize: DeliveryForecast -> seq<byte>,
                k: nat, sent0: seq<Datagram>, sent: seq<Datagram>, st: Sender)
  {
    CanRun(st0, counts, elapsed, fc, serialize, k)
    && |sent| >= |sent0| && sent[..|sent0|] == sent0
    && Run(st0, counts, elapsed, fc, serialize, k) == (st, sent[|sent0|..])
  }

  /** A datagram carrying the k-th queued payload extends a log that matches the first k-1. */
  lemma {:induction false} OneMoreReleased(q: seq<Queued>, k: nat, ds: seq<Datagram>, d: Datagram)
    requires 0 < k <= |q| && Payloads(ds) == Strings(q[..k - 1]) && Payload(d) == q[k - 1].payload
    ensures Payloads(ds + [d]) == Strings(q[..k])
  {
    PayloadsSnoc(ds, d);
    assert q[..k][..k - 1] == q[..k - 1];
  }

  /** One more pass of the loop from where k passes left the sender extends the run by one step. */
  lemma {:induction false} RanStep(st0: Sender, counts: seq<int>, elapsed: nat, fc: DeliveryForecast,
                                   serialize: DeliveryForecast -> seq<byte>, k: nat, sent0: seq<Datagram>,
                                   sent: seq<Datagram>, st: Sender)
    requires Ran(st0, counts, elapsed, fc, serialize, k, sent0, sent, st) && CanSend(st, counts, fc, serialize)
    ensures var step := Step(st, counts, elapsed, fc, serialize);
            Ran(st0, counts, elapsed, fc, serialize, k + 1, sent0, sent + [step.1], step.0)
  {
    var step := Step(st, counts, elapsed, fc, serialize);
    assert (sent + [step.1])[..|sent0|] == sent[..|sent0|];
    assert (sent + [step.1])[|sent0|..] == sent[|sent0|..] + [step.1];
  }

  class SproutConnection {
    var localForecastTime: nat
    var remoteForecastTime: nat
    var lastOutgoingEndedFlight: bool
    var currentQueueBytesEstimate: int
    var currentForecastTick: int
    var operativeForecast: DeliveryForecast
    var outgoingQueue: seq<Queued>
    /** Every datagram handed to the underlying connection, oldest first. */
    var sent: seq<Datagram>

    ghost predicate Valid()
      reads this
    {
      currentQueueBytesEstimate >= 0
      && 0 <= currentForecastTick
      && (currentForecastTick == 0 || currentForecastTick < |operativeForecast.counts|)
    }

    ghost function EstimateNow(): Estimate
      reads this
    {
      Estimate(currentForecastTick, currentQueueBytesEstimate)
    }

    /** The state tick works on. */
    ghost function Current(): Sender
      reads this
    {
      Sender(EstimateNow(), lastOutgoingEndedFlight, localForecastTime, outgoingQueue)
    }

    /** What window_size would report at time now. */
    ghost function WindowAt(now: nat, tickLength: nat): int
      reads this
      requires Valid() && |operativeForecast.counts| > 0
      requires remoteForecastTime <= now && tickLength > 0
    {
      WindowFor(EstimateNow(), operativeForecast.counts, Elapsed(now, remoteForecastTime, tickLength), outgoingQueue)
    }

    /** Starts with the local receiver's own forecast as "something reasonable" to go by. */
    constructor (localForecast: DeliveryForecast)
      ensures Valid()
      ensures localForecastTime == 0 && remoteForecastTime == 0 && lastOutgoingEndedFlight
      ensures EstimateNow() == Estimate(0, 0) && operativeForecast == localForecast
      ensures outgoingQueue == [] && sent == []
    {
      localForecastTime := 0;
      remoteForecastTime := 0;
      lastOutgoingEndedFlight := true;
      currentQueueBytesEstimate := 0;
      currentForecastTick := 0;
      operativeForecast := localForecast;
      outgoingQueue := [];
      sent := [];
    }

    /** Catch the estimate up with the clock, one forecast tick at a time. */
    method UpdateQueueEstimate(now: nat, tickLength: nat)
      requires Valid() && remoteForecastTime <= now && tickLength > 0
      modifies this
      ensures localForecastTime == old(localForecastTime) && remoteForecastTime == old(remoteForecastTime)
      ensures lastOutgoingEndedFlight == old(lastOutgoingEndedFlight)
      ensures operativeForecast == old(operativeForecast)
      ensures outgoingQueue == old(outgoingQueue) && sent == old(sent)
      ensures Valid()
      ensures EstimateNow() == Updated(old(EstimateNow()), operativeForecast.counts,
                                       Elapsed(now, remoteForecastTime, tickLength))
    {
      var counts := operativeForecast.counts;
      var elapsed := Elapsed(now, remoteForecastTime, tickLength);
      var newTick := if elapsed < |counts| - 1 then elapsed else |counts| - 1;
      ghost var start := EstimateNow();
      while currentForecastTick < newTick
        invariant start.tick >= newTick ==> EstimateNow() == start
        invariant start.tick < newTick ==>
                    start.tick <= currentForecastTick <= newTick
                    && Drained(currentQueueBytesEstimate, counts, currentForecastTick, newTick)
                       == Drained(start.bytes, counts, start.tick, newTick)
        invariant currentQueueBytesEstimate >= 0
        invariant localForecastTime == old(localForecastTime) && remoteForecastTime == old(remoteForecastTime)
        invariant lastOutgoingEndedFlight == old(lastOutgoingEndedFlight)
        invariant operativeForecast == old(operativeForecast)
        invariant outgoingQueue == old(outgoingQueue) && sent == old(sent)
        decreases newTick - currentForecastTick
      {
        currentQueueBytesEstimate := currentQueueBytesEstimate - PACKET_BYTES * counts[currentForecastTick];
        if currentQueueBytesEstimate < 0 {
          currentQueueBytesEstimate := 0;
        }
        currentForecastTick := currentForecastTick + 1;
      }
    }

    /**
     * Frame s, attaching the local forecast when a flight starts and that
     * forecast is new, hand it to the connection, and count its bytes as
     * in flight.
     */
    method Send(s: seq<byte>, timeToNext: uint16, now: nat, tickLength: nat,
                localForecast: DeliveryForecast, serialize: DeliveryForecast -> seq<byte>)
      requires Valid() && remoteForecastTime <= now && tickLength > 0
      requires AttachesForecast(localForecast) ==> |serialize(localForecast)| <= MAX_FORECAST_BYTES
      modifies this
      ensures remoteForecastTime == old(remoteForecastTime) && operativeForecast == old(operativeForecast)
      ensures outgoingQueue == old(outgoingQueue)
      ensures Valid()
      ensures var p := Outgoing(s, old(lastOutgoingEndedFlight), old(localForecastTime), localForecast, serialize);
              sent == old(sent) + [Datagram(ToBytes(p), timeToNext)]
              && EstimateNow() == Updated(Estimate(old(currentForecastTick), old(currentQueueBytesEstimate) + |ToBytes(p)|),
                                          operativeForecast.counts, Elapsed(now, remoteForecastTime, tickLength))
      ensures localForecastTime
              == if old(lastOutgoingEndedFlight) && localForecast.time != old(localForecastTime)
                 then localForecast.time else old(localForecastTime)
      ensures lastOutgoingEndedFlight == (timeToNext > 0)
    {
      ghost var p := Outgoing(s, lastOutgoingEndedFlight, localForecastTime, localForecast, serialize);
      assert |p.forecast| <= MAX_FORECAST_BYTES;
      ParseToBytes(p);
      var toSend := WithoutForecast(s);
      if lastOutgoingEndedFlight {
        var fc := localForecast;
        if fc.time != localForecastTime {
          toSend := AddForecast(toSend, serialize(fc));
          localForecastTime := fc.time;
        }
      }
      lastOutgoingEndedFlight := timeToNext > 0;
      assert toSend == p;
      var outgoing := ToBytes(toSend);
      sent := sent + [Datagram(outgoing, timeToNext)];
      currentQueueBytesEstimate := currentQueueBytesEstimate + |outgoing|;
      UpdateQueueEstimate(now, tickLength);
    }

    /**
     * Read a datagram. A forecast in it becomes the operative one: the
     * clock for it starts now, the bytes in flight are what has been sent
     * but not yet seen arrive or be lost, and the tick starts at zero.
     */
    method Recv(incoming: seq<byte>, now: nat, nextSeq: nat, tickLength: nat,
                parse: seq<byte> -> Option<DeliveryForecast>) returns (data: seq<byte>)
      requires Valid() && |incoming| >= 2 && tickLength > 0
      requires remoteForecastTime <= now
      requires HasForecast(Parse(incoming)) ==>
                 parse(Parse(incoming).forecast).Some?
                 && parse(Parse(incoming).forecast).value.receivedOrLostCount <= nextSeq
      modifies this
      ensures Valid()
      ensures data == Parse(incoming).data
      ensures HasForecast(Parse(incoming)) ==>
                operativeForecast == ForecastOf(Parse(incoming), parse) && remoteForecastTime == now
                && EstimateNow() == Estimate(0, nextSeq - operativeForecast.receivedOrLostCount)
      ensures !HasForecast(Parse(incoming)) ==>
                operativeForecast == old(operativeForecast) && remoteForecastTime == old(remoteForecastTime)
                && EstimateNow() == old(EstimateNow())
      ensures localForecastTime == old(localForecastTime) && lastOutgoingEndedFlight == old(lastOutgoingEndedFlight)
      ensures outgoingQueue == old(outgoingQueue) && sent == old(sent)
    {
      var packet := Parse(incoming);
      if HasForecast(packet) {
        operativeForecast := ForecastOf(packet, parse);
        remoteForecastTime := now;
        currentQueueBytesEstimate := nextSeq - operativeForecast.receivedOrLostCount;
        currentForecastTick := 0;
        UpdateQueueEstimate(now, tickLength);
      }
      data := packet.data;
    }

    /** How many bytes may be released now, after catching the estimate up with the clock. */
    method WindowSize(now: nat, tickLength: nat) returns (w: int)
      requires Valid() && |operativeForecast.counts| > 0
      requires remoteForecastTime <= now && tickLength > 0
      modifies this
      ensures localForecastTime == old(localForecastTime) && remoteForecastTime == old(remoteForecastTime)
      ensures lastOutgoingEndedFlight == old(lastOutgoingEndedFlight)
      ensures operativeForecast == old(operativeForecast)
      ensures outgoingQueue == old(outgoingQueue) && sent == old(sent)
      ensures Valid()
      ensures EstimateNow() == Updated(old(EstimateNow()), operativeForecast.counts,
                                       Elapsed(now, remoteForecastTime, tickLength))
      ensures w == old(WindowAt(now, tickLength)) && w >= 0
      ensures w == WindowAt(now, tickLength)
    {
      UpdateQueueEstimate(now, tickLength);
      var counts := operativeForecast.counts;
      var target := currentForecastTick + TARGET_DELAY_TICKS;
      if target >= |counts| {
        target := |counts| - 1;
      }
      var bytesToSend := PACKET_BYTES * (counts[target] - counts[currentForecastTick]) - currentQueueBytesEstimate;
      ghost var base := bytesToSend;
      var i := 0;
      while i < |outgoingQueue|
        invariant 0 <= i <= |outgoingQueue|
        invariant bytesToSend == base - QueuedBytes(outgoingQueue[..i])
      {
        assert outgoingQueue[..i + 1][..i] == outgoingQueue[..i];
        bytesToSend := bytesToSend - |outgoingQueue[i].payload|;
        i := i + 1;
      }
      assert outgoingQueue[..i] == outgoingQueue;
      if bytesToSend < 0 {
        bytesToSend := 0;
      }
      w := bytesToSend;
      UpdatedLater(old(EstimateNow()), counts, Elapsed(now, remoteForecastTime, tickLength),
                   Elapsed(now, remoteForecastTime, tickLength));
    }

    method QueueToSend(s: seq<byte>, timeToNext: uint16)
      modifies this
      ensures outgoingQueue == old(outgoingQueue) + [Queued(s, timeToNext)]
      ensures Strings(outgoingQueue) == old(Strings(outgoingQueue)) + [s]
      ensures QueuedBytes(outgoingQueue) == old(QueuedBytes(outgoingQueue)) + |s|
      ensures localForecastTime == old(localForecastTime) && remoteForecastTime == old(remoteForecastTime)
      ensures lastOutgoingEndedFlight == old(lastOutgoingEndedFlight) && EstimateNow() == old(EstimateNow())
      ensures operativeForecast == old(operativeForecast) && sent == old(sent)
    {
      outgoingQueue := outgoingQueue + [Queued(s, timeToNext)];
      assert outgoingQueue[..|outgoingQueue| - 1] == old(outgoingQueue);
    }

    /**
     * Send the head of the queue, telling the far end another packet
     * follows at once when the next one will fit too.
     */
    method SendHead(now: nat, tickLength: nat, localForecast: DeliveryForecast,
                    serialize: DeliveryForecast -> seq<byte>)
      requires Valid() && outgoingQueue != [] && |operativeForecast.counts| > 0
      requires remoteForecastTime <= now && tickLength > 0
      requires AttachesForecast(localForecast) ==> |serialize(localForecast)| <= MAX_FORECAST_BYTES
      modifies this
      ensures Valid()
      ensures remoteForecastTime == old(remoteForecastTime) && operativeForecast == old(operativeForecast)
      ensures SentHead(old(Current()), operativeForecast.counts, Elapsed(now, remoteForecastTime, tickLength),
                       localForecast, serialize, old(sent), Current(), sent)
    {
      ghost var st := Current();
      ghost var sent0 := sent;
      var s, timeToNext := TakeHead(now, tickLength);
      ghost var mid := Current();
      Send(s, timeToNext, now, tickLength, localForecast, serialize);
      HeadThenSend(st, mid, Current(), s, timeToNext, operativeForecast.counts,
                   Elapsed(now, remoteForecastTime, tickLength), localForecast, serialize, sent0, sent);
    }

    /** Pop the head of the queue and decide its time-to-next, catching the estimate up on the way. */
    method TakeHead(now: nat, tickLength: nat) returns (s: seq<byte>, timeToNext: uint16)
      requires Valid() && outgoingQueue != [] && |operativeForecast.counts| > 0
      requires remoteForecastTime <= now && tickLength > 0
      modifies this
      ensures Valid()
      ensures remoteForecastTime == old(remoteForecastTime) && operativeForecast == old(operativeForecast)
      ensures localForecastTime == old(localForecastTime) && lastOutgoingEndedFlight == old(lastOutgoingEndedFlight)
      ensures sent == old(sent) && outgoingQueue == old(outgoingQueue[1..]) && s == old(outgoingQueue[0].payload)
      ensures var elapsed := Elapsed(now, remoteForecastTime, tickLength);
              timeToNext == FlightTimeToNext(old(Current()), operativeForecast.counts, elapsed)
              && EstimateNow() == CaughtUp(old(Current()), operativeForecast.counts, elapsed)
    {
      s := outgoingQueue[0].payload;
      timeToNext := outgoingQueue[0].timeToNext;
      outgoingQueue := outgoingQueue[1..];
      if outgoingQueue != [] {
        var w := WindowSize(now, tickLength);
        if ContinuesFlight(w, |s|, |outgoingQueue[0].payload|) {
          timeToNext := 0;
        }
      }
    }

    /**
     * Whether the next send attaches this local forecast: the last packet
     * ended a flight and the forecast is newer than the one last attached.
     */
    predicate AttachesForecast(localForecast: DeliveryForecast)
      reads this
    {
      lastOutgoingEndedFlight && localForecast.time != localForecastTime
    }

    /**
     * Release queued packets in order for as long as the head fits the
     * window; what is left starts with a packet the window cannot take.
     * When the packet about to go out would carry a local forecast too
     * large for the 16-bit length field, the assertion in add_forecast
     * stops the program there: tick reports that as halted, with the
     * packets before it already sent.
     */
    method Tick(now: nat, tickLength: nat, localForecast: DeliveryForecast,
                serialize: DeliveryForecast -> seq<byte>) returns (halted: bool, ghost released: nat)
      requires Valid() && remoteForecastTime <= now && tickLength > 0
      requires outgoingQueue != [] ==> |operativeForecast.counts| > 0
      modifies this
      ensures remoteForecastTime == old(remoteForecastTime) && operativeForecast == old(operativeForecast)
      ensures Valid()
      ensures Released(old(sent), old(outgoingQueue), released)
      ensures !halted && outgoingQueue != [] ==> WindowAt(now, tickLength) < |outgoingQueue[0].payload|
      ensures halted ==> outgoingQueue != [] && WindowAt(now, tickLength) >= |outgoingQueue[0].payload|
                         && AttachesForecast(localForecast) && |serialize(localForecast)| > MAX_FORECAST_BYTES
      ensures var counts := operativeForecast.counts;
              var elapsed := Elapsed(now, remoteForecastTime, tickLength);
              var caughtUp := if old(outgoingQueue) != [] then Updated(old(EstimateNow()), counts, elapsed)
                              else old(EstimateNow());
              var st0 := Sender(caughtUp, old(lastOutgoingEndedFlight), old(localForecastTime), old(outgoingQueue));
              Ran(st0, counts, elapsed, localForecast, serialize, released, old(sent), sent, Current())
      ensures old(outgoingQueue) == [] ==>
                !halted && outgoingQueue == [] && sent == old(sent) && EstimateNow() == old(EstimateNow())
                && localForecastTime == old(localForecastTime) && lastOutgoingEndedFlight == old(lastOutgoingEndedFlight)
    {
      ghost var sent0 := sent;
      ghost var queue0 := outgoingQueue;
      released := 0;
      halted := false;
      assert sent[|sent0|..] == [];
      if outgoingQueue == [] {
        return;
      }
      ghost var counts := operativeForecast.counts;
      ghost var elapsed := Elapsed(now, remoteForecastTime, tickLength);
      var more := HeadFits(now, tickLength);
      ghost var st0 := Current();
      while more
        invariant Valid() && |operativeForecast.counts| > 0
        invariant remoteForecastTime == old(remoteForecastTime) && operativeForecast == old(operativeForecast)
        invariant Released(sent0, queue0, released)
        invariant Ran(st0, counts, elapsed, localForecast, serialize, released, sent0, sent, Current())
        invariant !halted
        invariant more ==> outgoingQueue != [] && WindowAt(now, tickLength) >= |outgoingQueue[0].payload|
        invariant !more && outgoingQueue != [] ==> WindowAt(now, tickLength) < |outgoingQueue[0].payload|
        decreases |outgoingQueue|
      {
        if AttachesForecast(localForecast) && |serialize(localForecast)| > MAX_FORECAST_BYTES {
          halted := true;
          return;
        }
        ghost var before := Current();
        ghost var sentBefore := sent;
        more := SendNext(now, tickLength, localForecast, serialize, sent0, queue0, released);
        RanStep(st0, counts, elapsed, localForecast, serialize, released, sent0, sentBefore, before);
        released := released + 1;
      }
    }

    /** One pass of tick's loop: send the head, then ask whether the new head fits the window. */
    method SendNext(now: nat, tickLength: nat, localForecast: DeliveryForecast, serialize: DeliveryForecast -> seq<byte>,
                    ghost sent0: seq<Datagram>, ghost queue0: seq<Queued>, ghost k: nat) returns (more: bool)
      requires Valid() && outgoingQueue != [] && |operativeForecast.counts| > 0
      requires remoteForecastTime <= now && tickLength > 0
      requires AttachesForecast(localForecast) ==> |serialize(localForecast)| <= MAX_FORECAST_BYTES
      requires Released(sent0, queue0, k)
      modifies this
      ensures Valid() && Released(sent0, queue0, k + 1)
      ensures remoteForecastTime == old(remoteForecastTime) && operativeForecast == old(operativeForecast)
      ensures StepTo(old(Current()), operativeForecast.counts, Elapsed(now, remoteForecastTime, tickLength),
                     localForecast, serialize, old(sent), Current(), sent)
      ensures more <==> outgoingQueue != [] && WindowAt(now, tickLength) >= |outgoingQueue[0].payload|
    {
      ghost var before := sent;
      ghost var counts := operativeForecast.counts;
      ghost var elapsed := Elapsed(now, remoteForecastTime, tickLength);
      ghost var st := Current();
      SendHead(now, tickLength, localForecast, serialize);
      StepComposes(st, counts, elapsed, localForecast, serialize, before, Current(), sent);
      StepDelivers(st, counts, elapsed, localForecast, serialize);
      SentInOrder(sent0, before, sent, queue0, k);
      StepCaughtUp(st, counts, elapsed, localForecast, serialize, before, Current(), sent);
      more := HeadFits(now, tickLength);
    }

    /**
     * Progress of tick: the first k packets of the queue it started from
     * have gone out in order after the datagrams sent before, and the
     * queue holds the rest.
     */
    ghost predicate Released(sent0: seq<Datagram>, queue0: seq<Queued>, k: nat)
      reads this
    {
      |sent| >= |sent0| && sent[..|sent0|] == sent0
      && k <= |queue0| && outgoingQueue == queue0[k..]
      && Payloads(sent[|sent0|..]) == Strings(queue0[..k])
    }

    /** The loop condition of tick: the queue is not empty and its head fits the window. */
    method HeadFits(now: nat, tickLength: nat) returns (fits: bool)
      requires Valid() && remoteForecastTime <= now && tickLength > 0
      requires outgoingQueue != [] ==> |operativeForecast.counts| > 0
      modifies this
      ensures remoteForecastTime == old(remoteForecastTime) && operativeForecast == old(operativeForecast)
      ensures outgoingQueue == old(outgoingQueue) && sent == old(sent)
      ensures localForecastTime == old(localForecastTime) && lastOutgoingEndedFlight == old(lastOutgoingEndedFlight)
      ensures EstimateNow()
              == if outgoingQueue != [] then Updated(old(EstimateNow()), operativeForecast.counts,
                                                     Elapsed(now, remoteForecastTime, tickLength))
                 else old(EstimateNow())
      ensures Valid()
      ensures fits <==> outgoingQueue != [] && WindowAt(now, tickLength) >= |outgoingQueue[0].payload|
    {
      fits := false;
      if outgoingQueue != [] {
        var w := WindowSize(now, tickLength);
        fits := w >= |outgoingQueue[0].payload|;
      }
    }
  }

  /** One more datagram sent from the head of the queue extends the sent payloads by the next queued one. */
  lemma {:induction false} SentInOrder(sent0: seq<Datagram>, before: seq<Datagram>, after: seq<Datagram>,
                                       q0: seq<Queued>, k: nat)
    requires |before| >= |sent0| && before[..|sent0|] == sent0 && k < |q0|
    requires |after| == |before| + 1 && after[..|before|] == before
    requires Payload(after[|before|]) == q0[k].payload
    requires Payloads(before[|sent0|..]) == Strings(q0[..k])
    ensures |after| >= |sent0| && after[..|sent0|] == sent0
    ensures Payloads(after[|sent0|..]) == Strings(q0[..k + 1])
  {
    assert after[..|sent0|] == before[..|sent0|];
    assert after[|sent0|..] == before[|sent0|..] + [after[|before|]];
    PayloadsSnoc(before[|sent0|..], after[|before|]);
    assert q0[..k + 1][..k] == q0[..k];
  }

  lemma {:induction false} PayloadsSnoc(ds: seq<Datagram>, d: Datagram)
    ensures Payloads(ds + [d]) == Payloads(ds) + [Payload(d)]
  {
    assert (ds + [d])[..|ds|] == ds;
  }
}
