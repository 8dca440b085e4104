/**
 * The cellproxy link emulator: packets wait a fixed delay, then each
 * delivery opportunity in the trace carries exactly one packet, whatever
 * its size. Opportunities that pass with no packet ready are counted as
 * capacity and lost.
 */
module CellProxy {
  import opened Bytes
  import opened DelayLines

  /** The wait reported when nothing is pending, in milliseconds. */
  const DEFAULT_WAIT: int := 100

  /** Delivering the front of the ready queue moves it to the back of the delivered list; the flow is unchanged. */
  lemma {:induction false} DeliverKeepsFlow(delivered: seq<seq<byte>>, pdp: seq<DelayedPacket>)
    requires pdp != []
    ensures (delivered + [pdp[0].contents]) + Contents(pdp[1..]) == delivered + Contents(pdp)
  {
    assert Contents(pdp) == [pdp[0].contents] + Contents(pdp[1..]);
  }

  /** Releasing a packet to the back of the ready queue extends the flow by that packet. */
  lemma {:induction false} ReleaseExtendsFlow(delivered: seq<seq<byte>>, pdp: seq<DelayedPacket>, p: DelayedPacket)
    ensures delivered + Contents(pdp + [p]) == delivered + Contents(pdp) + [p.contents]
  {
    ContentsAppend(pdp, [p]);
    assert Contents([p]) == [p.contents];
  }

  /**
   * What tick does at now, from a delay line delay0, a ready queue pdp0, a
   * schedule schedule0, a delivered list delivered0, counters total0 and
   * used0 and a counter second bin0, to delay, pdp, schedule, out, total,
   * used and bin: the delay line has released exactly the packets due by
   * now, from its front, to the back of the ready queue; the schedule has
   * dropped the opportunities before now (pruned), then spent those
   * timestamped exactly now (served), one per ready packet, until either
   * ran out; out is delivered0 followed by the served packets in
   * ready-queue order; and the per-second counters restart when now is in
   * a later second, else count every pruned and served opportunity and
   * every served packet.
   */
  predicate TickResult(delay0: seq<DelayedPacket>, pdp0: seq<DelayedPacket>, schedule0: seq<nat>,
                       delivered0: seq<seq<byte>>, total0: nat, used0: nat, bin0: nat, now: nat,
                       delay: seq<DelayedPacket>, pdp: seq<DelayedPacket>, schedule: seq<nat>,
                       out: seq<seq<byte>>, total: nat, used: nat, bin: nat)
  {
    |delay| <= |delay0| && delay == delay0[|delay0| - |delay|..]
    && (forall i :: 0 <= i < |delay0| - |delay| ==> delay0[i].releaseTime <= now)
    && (forall i :: 0 <= i < |delay| ==> delay[i].releaseTime > now)
    && var ready := pdp0 + delay0[..|delay0| - |delay|];
       |pdp| <= |ready| && pdp == ready[|ready| - |pdp|..]
       && var served := |ready| - |pdp|;
          out == delivered0 + Contents(ready[..served])
          && served + |schedule| <= |schedule0| && schedule == schedule0[|schedule0| - |schedule|..]
          && var pruned := |schedule0| - |schedule| - served;
             (forall i :: 0 <= i < pruned ==> schedule0[i] < now)
             && (forall i :: pruned <= i < pruned + served ==> schedule0[i] == now)
             && (schedule == [] || schedule[0] >= now)
             && (pdp == [] || schedule == [] || schedule[0] > now)
             && bin == (if now / 1000 > bin0 then now / 1000 else bin0)
             && (now / 1000 > bin0 ==> total == 0 && used == 0)
             && (now / 1000 <= bin0 ==> total == total0 + pruned + served && used == used0 + served)
  }

  /** The opportunities before now leave the front of the schedule, each counted; the rest is sorted and not before now. */
  predicate Pruned(schedule0: seq<nat>, total0: nat, now: nat, schedule: seq<nat>, total: nat)
  {
    |schedule| <= |schedule0| && schedule == schedule0[|schedule0| - |schedule|..]
    && (forall i :: 0 <= i < |schedule0| - |schedule| ==> schedule0[i] < now)
    && Sorted(schedule) && (schedule == [] || schedule[0] >= now)
    && total == total0 + (|schedule0| - |schedule|)
  }

  /** The packets due by now leave the front of the delay line, in order, for the back of the ready queue. */
  predicate Moved(delay0: seq<DelayedPacket>, pdp0: seq<DelayedPacket>, now: nat,
                  delay: seq<DelayedPacket>, pdp: seq<DelayedPacket>)
  {
    |delay| <= |delay0| && delay == delay0[|delay0| - |delay|..]
    && pdp == pdp0 + delay0[..|delay0| - |delay|]
    && (forall i :: 0 <= i < |delay0| - |delay| ==> delay0[i].releaseTime <= now)
    && (forall i :: 0 <= i < |delay| ==> delay[i].releaseTime > now)
  }

  /**
   * The second half of tick, from pdp1, schedule1, delivered1, total1,
   * used1 and bin1: each opportunity due by now carries the front ready
   * packet to the back of the delivered list, until either queue runs out
   * or the next opportunity is later; then the per-second counters roll.
   */
  predicate ServedNow(pdp1: seq<DelayedPacket>, schedule1: seq<nat>, delivered1: seq<seq<byte>>,
                      total1: nat, used1: nat, bin1: nat, now: nat,
                      pdp: seq<DelayedPacket>, schedule: seq<nat>, delivered: seq<seq<byte>>,
                      total: nat, used: nat, bin: nat)
  {
    |pdp| <= |pdp1| && |pdp1| - |pdp| <= |schedule1|
    && pdp == pdp1[|pdp1| - |pdp|..] && schedule == schedule1[|pdp1| - |pdp|..]
    && delivered == delivered1 + Contents(pdp1[..|pdp1| - |pdp|])
    && (forall i :: 0 <= i < |pdp1| - |pdp| ==> schedule1[i] <= now)
    && (pdp == [] || schedule == [] || schedule[0] > now)
    && bin == (if now / 1000 > bin1 then now / 1000 else bin1)
    && (now / 1000 > bin1 ==> total == 0 && used == 0)
    && (now / 1000 <= bin1 ==> total == total1 + (|pdp1| - |pdp|) && used == used1 + (|pdp1| - |pdp|))
  }

  /**
   * The schedule side of tick, from schedule0 through schedule1 (pruned)
   * to schedule (served entries spent): the opportunities the serving half
   * spent were all at now, those pruned before them were before now, and
   * what is left starts no earlier than now.
   */
  predicate SpentAtNow(schedule0: seq<nat>, schedule1: seq<nat>, served: nat, schedule: seq<nat>, now: nat)
  {
    |schedule1| <= |schedule0| && served + |schedule| <= |schedule0|
    && schedule == schedule0[|schedule0| - |schedule|..]
    && |schedule0| - |schedule| - served == |schedule0| - |schedule1|
    && (forall i :: 0 <= i < |schedule0| - |schedule1| ==> schedule0[i] < now)
    && (forall i :: |schedule0| - |schedule1| <= i < |schedule0| - |schedule1| + served ==> schedule0[i] == now)
    && (schedule == [] || schedule[0] >= now)
  }

  /** Because pruning leaves a sorted schedule with no opportunity before now, everything then served is at now. */
  lemma {:induction false} ScheduleComposes(schedule0: seq<nat>, total0: nat, now: nat, schedule1: seq<nat>, total1: nat,
                                            served: nat, schedule: seq<nat>)
    requires Pruned(schedule0, total0, now, schedule1, total1)
    requires served <= |schedule1| && schedule == schedule1[served..]
    requires forall i :: 0 <= i < served ==> schedule1[i] <= now
    ensures SpentAtNow(schedule0, schedule1, served, schedule, now)
  {
    var pruned := |schedule0| - |schedule1|;
    assert schedule == schedule0[pruned + served..];
    forall i | pruned <= i < pruned + served
      ensures schedule0[i] == now
    {
      assert schedule0[i] == schedule1[i - pruned] && schedule1[0] <= schedule1[i - pruned];
    }
    if schedule != [] {
      assert schedule[0] == schedule1[served] && schedule1[0] <= schedule1[served];
    }
  }

  /** Tick's halves compose into TickResult, given what ScheduleComposes shows of the schedule. */
  lemma {:induction false} TickComposes(delay0: seq<DelayedPacket>, pdp0: seq<DelayedPacket>, schedule0: seq<nat>,
                                        delivered0: seq<seq<byte>>, total0: nat, used0: nat, bin0: nat, now: nat,
                                        delay1: seq<DelayedPacket>, pdp1: seq<DelayedPacket>, schedule1: seq<nat>, total1: nat,
                                        pdp: seq<DelayedPacket>, schedule: seq<nat>,
                                        out: seq<seq<byte>>, total: nat, used: nat, bin: nat)
    requires Moved(delay0, pdp0, now, delay1, pdp1) && total1 == total0 + (|schedule0| - |schedule1|)
    requires ServedNow(pdp1, schedule1, delivered0, total1, used0, bin0, now, pdp, schedule, out, total, used, bin)
    requires SpentAtNow(schedule0, schedule1, |pdp1| - |pdp|, schedule, now)
    ensures TickResult(delay0, pdp0, schedule0, delivered0, total0, used0, bin0, now,
                       delay1, pdp, schedule, out, total, used, bin)
  {
  }

  class DelayQueue {
    const msDelay: nat
    var delay: seq<DelayedPacket>
    var pdp: seq<DelayedPacket>
    var schedule: seq<nat>
    var delivered: seq<seq<byte>>
    var totalOccurrences: nat
    var usedOccurrences: nat
    var binSec: nat
    /** The latest timestamp the emulator has read; the clock never goes backwards. */
    ghost var clock: nat
    /** Every packet written so far, and every packet read out so far. */
    ghost var written: seq<seq<byte>>
    ghost var handedOut: seq<seq<byte>>

    /**
     * Used opportunities never exceed those counted, the schedule is in time
     * order, the delay line releases in write order, and nothing is lost or
     * reordered: read out, delivered, ready and delayed are together what
     * was written.
     */
    ghost predicate Valid()
      reads this
    {
      usedOccurrences <= totalOccurrences && Sorted(schedule)
      && DelayLine(delay, msDelay, clock)
      && Conserved(handedOut, delivered + Contents(pdp), delay, written)
    }

    constructor (sMsDelay: nat, offsets: seq<nat>, baseTimestamp: nat, now: nat)
      requires Sorted(offsets)
      ensures Valid()
      ensures msDelay == sMsDelay && binSec == now / 1000 && clock == now
      ensures |schedule| == |offsets| && forall i :: 0 <= i < |offsets| ==> schedule[i] == offsets[i] + baseTimestamp
      ensures delay == [] && pdp == [] && delivered == []
      ensures totalOccurrences == 0 && usedOccurrences == 0 && written == [] && handedOut == []
    {
      msDelay := sMsDelay;
      delay := [];
      pdp := [];
      schedule := Shifted(offsets, baseTimestamp);
      delivered := [];
      totalOccurrences := 0;
      usedOccurrences := 0;
      binSec := now / 1000;
      clock := now;
      written := [];
      handedOut := [];
    }

    /**
     * Milliseconds until the next event: the head of the delay line coming
     * due (zero when it already is) or the next delivery opportunity for a
     * ready packet, whichever is sooner; 100 stands in for a queue that is
     * empty. Opportunities already past are pruned first.
     */
    method WaitTime(now: nat) returns (w: int)
      requires Valid() && now >= clock
      requires pdp != [] ==> schedule != [] && schedule[|schedule| - 1] >= now
      modifies this
      ensures Valid() && clock == now
      ensures delay == old(delay) && pdp == old(pdp) && delivered == old(delivered)
      ensures written == old(written) && handedOut == old(handedOut)
      ensures |schedule| <= |old(schedule)| && schedule == old(schedule)[|old(schedule)| - |schedule|..]
      ensures forall i :: 0 <= i < |old(schedule)| - |schedule| ==> old(schedule)[i] < now
      ensures schedule == [] || schedule[0] >= now
      ensures totalOccurrences == old(totalOccurrences) + (|old(schedule)| - |schedule|)
      ensures usedOccurrences == old(usedOccurrences) && binSec == old(binSec)
      ensures pdp != [] ==> schedule != [] && schedule[0] >= now
      ensures w >= 0
      ensures delay == [] || pdp == [] ==> w <= DEFAULT_WAIT
      ensures w == 0 <==> (delay != [] && delay[0].releaseTime <= now) || (pdp != [] && schedule[0] == now)
      ensures delay != [] && delay[0].releaseTime > now ==> w <= delay[0].releaseTime - now
      ensures pdp != [] ==> w <= schedule[0] - now
      ensures w == DEFAULT_WAIT || (delay != [] && w == delay[0].releaseTime - now)
              || (pdp != [] && w == schedule[0] - now) || w == 0
    {
      var delayWait, pdpWait := DEFAULT_WAIT, DEFAULT_WAIT;
      if delay != [] {
        delayWait := delay[0].releaseTime - now;
        if delayWait < 0 {
          delayWait := 0;
        }
      }
      PruneSchedule(now);
      if pdp != [] {
        pdpWait := schedule[0] - now;
        assert pdpWait >= 0;
      }
      w := if delayWait <= pdpWait then delayWait else pdpWait;
    }

    /**
     * Drop the delivery opportunities already in the past, counting each as
     * capacity that went unused.
     */
    method PruneSchedule(now: nat)
      requires Valid() && now >= clock
      modifies this
      ensures Valid() && clock == now
      ensures |schedule| <= |old(schedule)| && schedule == old(schedule)[|old(schedule)| - |schedule|..]
      ensures forall i :: 0 <= i < |old(schedule)| - |schedule| ==> old(schedule)[i] < now
      ensures schedule == [] || schedule[0] >= now
      ensures totalOccurrences == old(totalOccurrences) + (|old(schedule)| - |schedule|)
      ensures usedOccurrences == old(usedOccurrences) && binSec == old(binSec)
      ensures delay == old(delay) && pdp == old(pdp) && delivered == old(delivered)
      ensures written == old(written) && handedOut == old(handedOut)
    {
      DelayLineLater(delay, msDelay, clock, now);
      clock := now;
      ghost var k := 0;
      while schedule != [] && schedule[0] < now
        invariant 0 <= k <= |old(schedule)| && schedule == old(schedule)[k..]
        invariant forall i :: 0 <= i < k ==> old(schedule)[i] < now
        invariant Valid() && clock == now
        invariant totalOccurrences == old(totalOccurrences) + k
        invariant usedOccurrences == old(usedOccurrences) && binSec == old(binSec)
        invariant delay == old(delay) && pdp == old(pdp) && delivered == old(delivered)
        invariant written == old(written) && handedOut == old(handedOut)
        decreases |schedule|
      {
        SortedTail(schedule);
        schedule := schedule[1..];
        totalOccurrences := totalOccurrences + 1;
        k := k + 1;
      }
    }

    /**
     * Everything delivered up to now, in delivery order: what was waiting to
     * be read plus what this read's tick delivers. The delivered list starts
     * over empty.
     */
    method Read(now: nat) returns (ret: seq<seq<byte>>)
      requires Valid() && now >= clock
      modifies this
      ensures Valid() && clock == now && delivered == []
      ensures TickResult(old(delay), old(pdp), old(schedule), old(delivered), old(totalOccurrences),
                         old(usedOccurrences), old(binSec), now,
                         delay, pdp, schedule, ret, totalOccurrences, usedOccurrences, binSec)
      ensures old(delivered) <= ret
      ensures handedOut == old(handedOut) + ret
      ensures written == old(written)
    {
      Tick(now);
      ghost var delay1, pdp1, schedule1, out1 := delay, pdp, schedule, delivered;
      ghost var total1, used1, bin1 := totalOccurrences, usedOccurrences, binSec;
      ret := HandOut();
      assert delay == delay1 && pdp == pdp1 && schedule == schedule1 && ret == out1;
      assert totalOccurrences == total1 && usedOccurrences == used1 && binSec == bin1;
    }

    /** The end of read: the delivered list is handed out whole and starts over empty. */
    method HandOut() returns (ret: seq<seq<byte>>)
      requires Valid()
      modifies this`delivered, this`handedOut
      ensures Valid() && ret == old(delivered) && delivered == []
      ensures handedOut == old(handedOut) + ret
    {
      ret := delivered;
      ConservedRead(handedOut, ret, Contents(pdp), delay, written);
      delivered := [];
      handedOut := handedOut + ret;
    }

    /** Enqueue a packet on the delay line, to be released msDelay from now. */
    method Write(now: nat, packet: seq<byte>)
      requires Valid() && now >= clock
      modifies this
      ensures Valid() && clock == now
      ensures delay == old(delay) + [DelayedPacket(now, now + msDelay, packet)]
      ensures written == old(written) + [packet]
      ensures pdp == old(pdp) && schedule == old(schedule) && delivered == old(delivered)
      ensures totalOccurrences == old(totalOccurrences) && usedOccurrences == old(usedOccurrences)
      ensures binSec == old(binSec) && handedOut == old(handedOut)
    {
      var p := DelayedPacket(now, now + msDelay, packet);
      ConservedWrite(handedOut, delivered + Contents(pdp), delay, written, p);
      DelayLineAppend(delay, msDelay, clock, now, packet);
      delay := delay + [p];
      clock := now;
      written := written + [packet];
    }

    /**
     * Prune past opportunities, release every packet now due from the delay
     * line, give each opportunity due now one ready packet, then roll the
     * per-second counters.
     */
    method Tick(now: nat)
      requires Valid() && now >= clock
      modifies this
      ensures Valid() && clock == now && written == old(written) && handedOut == old(handedOut)
      ensures TickResult(old(delay), old(pdp), old(schedule), old(delivered), old(totalOccurrences),
                         old(usedOccurrences), old(binSec), now,
                         delay, pdp, schedule, delivered, totalOccurrences, usedOccurrences, binSec)
      ensures old(delivered) <= delivered
    {
      Arrive(now);
      ghost var pdp1, schedule1, total1 := pdp, schedule, totalOccurrences;
      Serve(now);
      ScheduleComposes(old(schedule), old(totalOccurrences), now, schedule1, total1, |pdp1| - |pdp|, schedule);
      TickComposes(old(delay), old(pdp), old(schedule), old(delivered), old(totalOccurrences), old(usedOccurrences),
                   old(binSec), now, delay, pdp1, schedule1, total1,
                   pdp, schedule, delivered, totalOccurrences, usedOccurrences, binSec);
    }

    /** The first half of tick: drop the opportunities before now, then release the packets due by now. */
    method Arrive(now: nat)
      requires Valid() && now >= clock
      modifies this
      ensures Valid() && clock == now && written == old(written) && handedOut == old(handedOut)
      ensures Pruned(old(schedule), old(totalOccurrences), now, schedule, totalOccurrences)
      ensures Moved(old(delay), old(pdp), now, delay, pdp)
      ensures usedOccurrences == old(usedOccurrences) && binSec == old(binSec) && delivered == old(delivered)
    {
      PruneSchedule(now);
      ghost var schedule1, total1 := schedule, totalOccurrences;
      assert Pruned(old(schedule), old(totalOccurrences), now, schedule1, total1);
      MoveReleased(now);
    }

    /** The second half of tick: serve the opportunities due by now, then roll the per-second counters. */
    method Serve(now: nat)
      requires Valid()
      modifies this
      ensures Valid() && clock == old(clock) && written == old(written) && handedOut == old(handedOut)
      ensures delay == old(delay)
      ensures ServedNow(old(pdp), old(schedule), old(delivered), old(totalOccurrences), old(usedOccurrences),
                        old(binSec), now, pdp, schedule, delivered, totalOccurrences, usedOccurrences, binSec)
    {
      DeliverDue(now);
      ghost var pdp1, schedule1, delivered1 := pdp, schedule, delivered;
      assert pdp1 == old(pdp)[|old(pdp)| - |pdp1|..] && schedule1 == old(schedule)[|old(pdp)| - |pdp1|..];
      assert delivered1 == old(delivered) + Contents(old(pdp)[..|old(pdp)| - |pdp1|]);
      AdvanceBins(now);
    }

    /** The first loop of tick: packets whose release time has come move, in order, to the ready queue. */
    method MoveReleased(now: nat)
      requires Valid() && now == clock
      modifies this
      ensures Valid()
      ensures |delay| <= |old(delay)| && Released(old(delay), old(pdp), |old(delay)| - |delay|, now)
      ensures forall i :: 0 <= i < |delay| ==> delay[i].releaseTime > now
      ensures schedule == old(schedule) && delivered == old(delivered)
      ensures totalOccurrences == old(totalOccurrences) && usedOccurrences == old(usedOccurrences) && binSec == old(binSec)
      ensures clock == old(clock) && written == old(written) && handedOut == old(handedOut)
    {
      ghost var delay0 := delay;
      ghost var pdp0 := pdp;
      ghost var k := 0;
      while delay != [] && delay[0].releaseTime <= now
        invariant Released(delay0, pdp0, k, now)
        invariant Valid()
        invariant schedule == old(schedule) && delivered == old(delivered)
        invariant totalOccurrences == old(totalOccurrences) && usedOccurrences == old(usedOccurrences) && binSec == old(binSec)
        invariant clock == old(clock) && written == old(written) && handedOut == old(handedOut)
        decreases |delay|
      {
        MoveHead(delay0, pdp0, k, now);
        k := k + 1;
      }
    }

    /**
     * The first k packets of the delay line as it was, all due by now, have
     * moved in order to the back of the ready queue, and the rest of the
     * line is still waiting.
     */
    ghost predicate Released(delay0: seq<DelayedPacket>, pdp0: seq<DelayedPacket>, k: int, now: nat)
      reads this
    {
      0 <= k <= |delay0| && delay == delay0[k..] && pdp == pdp0 + delay0[..k]
      && forall i :: 0 <= i < k ==> delay0[i].releaseTime <= now
    }

    /** The head of the delay line goes to the back of the ready queue. */
    method MoveHead(ghost delay0: seq<DelayedPacket>, ghost pdp0: seq<DelayedPacket>, ghost k: int, now: nat)
      requires Valid() && delay != [] && delay[0].releaseTime <= now && Released(delay0, pdp0, k, now)
      modifies this
      ensures Valid() && Released(delay0, pdp0, k + 1, now)
      ensures delay == old(delay)[1..] && pdp == old(pdp) + [old(delay)[0]]
      ensures schedule == old(schedule) && delivered == old(delivered)
      ensures totalOccurrences == old(totalOccurrences) && usedOccurrences == old(usedOccurrences) && binSec == old(binSec)
      ensures clock == old(clock) && written == old(written) && handedOut == old(handedOut)
    {
      DelayLineTail(delay, msDelay, clock);
      ConservedMove(handedOut, delivered + Contents(pdp), delay, written);
      ReleaseExtendsFlow(delivered, pdp, delay[0]);
      pdp := pdp + [delay[0]];
      delay := delay[1..];
      assert delay0[..k + 1] == delay0[..k] + [delay0[k]];
    }

    /**
     * The second loop of tick: every opportunity due by now carries the
     * packet at the front of the ready queue, one packet per opportunity,
     * until either runs out.
     */
    method DeliverDue(now: nat)
      requires Valid()
      modifies this
      ensures Valid()
      ensures |pdp| <= |old(pdp)| && Delivered(old(pdp), old(schedule), old(delivered), |old(pdp)| - |pdp|, now)
      ensures totalOccurrences == old(totalOccurrences) + (|old(pdp)| - |pdp|)
      ensures usedOccurrences == old(usedOccurrences) + (|old(pdp)| - |pdp|)
      ensures pdp == [] || schedule == [] || schedule[0] > now
      ensures delay == old(delay) && binSec == old(binSec)
      ensures clock == old(clock) && written == old(written) && handedOut == old(handedOut)
    {
      ghost var pdp0, schedule0, delivered0 := pdp, schedule, delivered;
      ghost var k := 0;
      while pdp != [] && schedule != [] && schedule[0] <= now
        invariant Delivered(pdp0, schedule0, delivered0, k, now)
        invariant Valid()
        invariant totalOccurrences == old(totalOccurrences) + k
        invariant usedOccurrences == old(usedOccurrences) + k
        invariant delay == old(delay) && binSec == old(binSec)
        invariant clock == old(clock) && written == old(written) && handedOut == old(handedOut)
        decreases |pdp|
      {
        DeliverOne();
        ContentsAppend(pdp0[..k], [pdp0[k]]);
        assert pdp0[..k + 1] == pdp0[..k] + [pdp0[k]];
        assert Contents([pdp0[k]]) == [pdp0[k].contents];
        k := k + 1;
      }
    }

    /**
     * The first k ready packets have gone out in order on the first k
     * opportunities, each due by now; both queues have lost exactly those.
     */
    ghost predicate Delivered(pdp0: seq<DelayedPacket>, schedule0: seq<nat>, delivered0: seq<seq<byte>>, k: int, now: nat)
      reads this
    {
      0 <= k <= |pdp0| && k <= |schedule0| && pdp == pdp0[k..] && schedule == schedule0[k..]
      && delivered == delivered0 + Contents(pdp0[..k])
      && forall i :: 0 <= i < k ==> schedule0[i] <= now
    }

    /** One opportunity carries one packet. */
    method DeliverOne()
      requires Valid() && pdp != [] && schedule != []
      modifies this
      ensures Valid()
      ensures pdp == old(pdp)[1..] && schedule == old(schedule)[1..]
      ensures delivered == old(delivered) + [old(pdp)[0].contents]
      ensures totalOccurrences == old(totalOccurrences) + 1 && usedOccurrences == old(usedOccurrences) + 1
      ensures delay == old(delay) && binSec == old(binSec)
      ensures clock == old(clock) && written == old(written) && handedOut == old(handedOut)
    {
      DeliverKeepsFlow(delivered, pdp);
      SortedTail(schedule);
      delivered := delivered + [pdp[0].contents];
      pdp := pdp[1..];
      schedule := schedule[1..];
      totalOccurrences := totalOccurrences + 1;
      usedOccurrences := usedOccurrences + 1;
    }

    /** The end of tick: per-second counters restart each time the clock passes into a new second. */
    method AdvanceBins(now: nat)
      modifies this
      ensures binSec == if now / 1000 > old(binSec) then now / 1000 else old(binSec)
      ensures now / 1000 > old(binSec) ==> totalOccurrences == 0 && usedOccurrences == 0
      ensures now / 1000 <= old(binSec) ==> totalOccurrences == old(totalOccurrences) && usedOccurrences == old(usedOccurrences)
      ensures delay == old(delay) && pdp == old(pdp) && schedule == old(schedule)
      ensures delivered == old(delivered) && clock == old(clock) && written == old(written) && handedOut == old(handedOut)
    {
      while now / 1000 > binSec
        invariant binSec <= if now / 1000 > old(binSec) then now / 1000 else old(binSec)
        invariant binSec >= old(binSec)
        invariant binSec > old(binSec) ==> totalOccurrences == 0 && usedOccurrences == 0
        invariant binSec == old(binSec) ==> totalOccurrences == old(totalOccurrences) && usedOccurrences == old(usedOccurrences)
        invariant delay == old(delay) && pdp == old(pdp) && schedule == old(schedule)
        invariant delivered == old(delivered) && clock == old(clock) && written == old(written) && handedOut == old(handedOut)
        decreases now / 1000 - binSec
      {
        totalOccurrences := 0;
        usedOccurrences := 0;
        binSec := binSec + 1;
      }
    }
  }
}
