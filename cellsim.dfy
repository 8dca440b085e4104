/**
 * The cellsim link emulator: packets wait a fixed delay, then queue for
 * delivery opportunities read from a trace. Each opportunity grants 1500
 * bytes of credit; a packet the credit does not cover waits in a one-slot
 * "limbo", carrying the bytes it has earned so far into later
 * opportunities.
 */
module CellSim {
  import opened Bytes
  import opened DelayLines

  /** Bytes of credit one delivery opportunity grants. */
  const SERVICE_PACKET_SIZE: int := 1500
  const INT_MAX: int := 0x7fff_ffff

  /** A packet that has earned part, but not all, of the credit it needs. */
  datatype PartialPacket = PartialPacket(bytesEarned: int, packet: DelayedPacket)

  /** The part of the emulator a delivery opportunity acts on. */
  datatype Service = Service(pdp: seq<DelayedPacket>, limbo: seq<PartialPacket>,
                             delivered: seq<seq<byte>>, totalBytes: nat, usedBytes: nat)

  /** The packets due by now have left the front of delay0, and none of those left is due. */
  predicate DrainedBy(delay0: seq<DelayedPacket>, now: nat, delay: seq<DelayedPacket>)
  {
    |delay| <= |delay0| && delay == delay0[|delay0| - |delay|..]
    && (forall i :: 0 <= i < |delay0| - |delay| ==> delay0[i].releaseTime <= now)
    && (forall i :: 0 <= i < |delay| ==> delay[i].releaseTime > now)
  }

  /** The opportunities due by now have left the front of schedule0, and none of those left is due. */
  predicate ConsumedBy(schedule0: seq<nat>, now: nat, schedule: seq<nat>)
  {
    |schedule| <= |schedule0| && schedule == schedule0[|schedule0| - |schedule|..]
    && (forall i :: 0 <= i < |schedule0| - |schedule| ==> schedule0[i] <= now)
    && (forall i :: 0 <= i < |schedule| ==> schedule[i] > now)
  }

  /**
   * What tick leaves at now, from a delay line delay0, a schedule
   * schedule0, a service state s0 and a counter second bin0: the delay
   * line has released exactly the packets due by now, from its front; the
   * schedule has lost exactly the opportunities due by now, from its front;
   * the ready queue, limbo and delivered list are those the released
   * packets and the served opportunities give; and the per-second counters
   * restart when now is in a later second, else keep what serving left.
   */
  predicate TickResult(delay0: seq<DelayedPacket>, schedule0: seq<nat>, s0: Service, bin0: nat, now: nat,
                       delay: seq<DelayedPacket>, schedule: seq<nat>, pdp: seq<DelayedPacket>,
                       limbo: seq<PartialPacket>, out: seq<seq<byte>>, total: nat, used: nat, bin: nat)
  {
    LimboOk(s0.limbo) && DrainedBy(delay0, now, delay) && ConsumedBy(schedule0, now, schedule)
    && var r := Served(s0, delay0[..|delay0| - |delay|], |schedule0| - |schedule|);
       pdp == r.pdp && limbo == r.limbo && out == r.delivered
       && bin == (if now / 1000 > bin0 then now / 1000 else bin0)
       && (now / 1000 > bin0 ==> total == 0 && used == 0)
       && (now / 1000 <= bin0 ==> total == r.totalBytes && used == r.usedBytes)
  }

  /**
   * The second half of tick, from schedule1, the service state s1 and
   * bin1: the opportunities due by now leave the front of the schedule and
   * are served in order, then the per-second counters restart when now is
   * in a later second, else keep what serving left.
   */
  predicate ServedBy(schedule1: seq<nat>, s1: Service, bin1: nat, now: nat, schedule: seq<nat>, pdp: seq<DelayedPacket>,
                    limbo: seq<PartialPacket>, out: seq<seq<byte>>, total: nat, used: nat, bin: nat)
  {
    LimboOk(s1.limbo) && ConsumedBy(schedule1, now, schedule)
    && var r := Opportunities(s1, |schedule1| - |schedule|);
       pdp == r.pdp && limbo == r.limbo && out == r.delivered
       && bin == (if now / 1000 > bin1 then now / 1000 else bin1)
       && (now / 1000 > bin1 ==> total == 0 && used == 0)
       && (now / 1000 <= bin1 ==> total == r.totalBytes && used == r.usedBytes)
  }

  /** The two halves of tick make the whole: releasing, then serving, leaves what TickResult says. */
  lemma {:induction false} TickComposes(delay0: seq<DelayedPacket>, schedule0: seq<nat>, s0: Service, bin0: nat, now: nat,
                                        delay: seq<DelayedPacket>, schedule: seq<nat>, pdp: seq<DelayedPacket>,
                                        limbo: seq<PartialPacket>, out: seq<seq<byte>>, total: nat, used: nat, bin: nat)
    requires LimboOk(s0.limbo) && DrainedBy(delay0, now, delay)
    requires ServedBy(schedule0, s0.(pdp := s0.pdp + delay0[..|delay0| - |delay|]), bin0, now,
                      schedule, pdp, limbo, out, total, used, bin)
    ensures TickResult(delay0, schedule0, s0, bin0, now, delay, schedule, pdp, limbo, out, total, used, bin)
  {
  }

  /** At most one packet in limbo, and it has earned less than its size. */
  predicate LimboOk(limbo: seq<PartialPacket>)
  {
    |limbo| <= 1 && (limbo != [] ==> 0 <= limbo[0].bytesEarned < |limbo[0].packet.contents|)
  }

  function Earned(limbo: seq<PartialPacket>): int
  {
    if limbo == [] then 0 else limbo[0].bytesEarned
  }

  function LimboContents(limbo: seq<PartialPacket>): seq<seq<byte>>
  {
    if limbo == [] then [] else [limbo[0].packet.contents]
  }

  /** Packets waiting for credit, in the order they will go out: limbo first, then the ready queue. */
  function Waiting(s: Service): seq<seq<byte>>
  {
    LimboContents(s.limbo) + Contents(s.pdp)
  }

  /** Everything that has come out of the delay line and not been read yet, in order. */
  function Flow(s: Service): seq<seq<byte>>
  {
    s.delivered + Waiting(s)
  }

  /**
   * What serving keeps, from s to r with credit granted: limbo is a single
   * under-paid packet; capacity plus the credit carried in limbo grows by
   * exactly the credit; use grows by no more than capacity; delivered only
   * grows; and the packets delivered followed by those still waiting are
   * the same sequence as before.
   */
  predicate Accounted(s: Service, r: Service, credit: int)
  {
    LimboOk(r.limbo)
    && r.totalBytes + Earned(r.limbo) == s.totalBytes + Earned(s.limbo) + credit
    && r.totalBytes - s.totalBytes >= r.usedBytes - s.usedBytes >= 0
    && Flow(r) == Flow(s) && s.delivered <= r.delivered
  }

  lemma {:induction false} AccountedTrans(s: Service, m: Service, r: Service, c1: int, c2: int)
    requires Accounted(s, m, c1) && Accounted(m, r, c2)
    ensures Accounted(s, r, c1 + c2)
  {
  }

  /**
   * Spending credit on the ready queue with limbo empty: whole packets the
   * credit covers are delivered in order; the first one it does not cover
   * takes what is left into limbo; credit with nothing to spend it on is
   * an underflow, counted as capacity but not as use.
   */
  function Spend(credit: int, s: Service): (r: Service)
    requires credit >= 0 && (credit > 0 ==> s.limbo == [])
    ensures |r.delivered| >= |s.delivered|
    decreases |s.pdp|
  {
    if credit == 0 then s
    else if s.pdp == [] then s.(totalBytes := s.totalBytes + credit)
    else
      var p := s.pdp[0];
      if credit >= |p.contents| then
        Spend(credit - |p.contents|,
              s.(pdp := s.pdp[1..], delivered := s.delivered + [p.contents],
                 totalBytes := s.totalBytes + |p.contents|, usedBytes := s.usedBytes + |p.contents|))
      else
        s.(pdp := s.pdp[1..], limbo := [PartialPacket(credit, p)])
  }

  lemma {:induction false} SpendKeeps(credit: int, s: Service)
    requires credit >= 0 && (credit > 0 ==> s.limbo == []) && LimboOk(s.limbo)
    ensures Accounted(s, Spend(credit, s), credit)
    decreases |s.pdp|
  {
    if credit > 0 && s.pdp != [] {
      var p := s.pdp[0];
      if credit >= |p.contents| {
        var next := s.(pdp := s.pdp[1..], delivered := s.delivered + [p.contents],
                       totalBytes := s.totalBytes + |p.contents|, usedBytes := s.usedBytes + |p.contents|);
        assert Flow(next) == Flow(s);
        SpendKeeps(credit - |p.contents|, next);
      } else {
        var r := s.(pdp := s.pdp[1..], limbo := [PartialPacket(credit, p)]);
        assert Waiting(r) == Waiting(s);
      }
    }
  }

  /**
   * One delivery opportunity: the credit goes to the packet in limbo first,
   * delivering it if what it has earned plus the credit covers its size;
   * what is left is spent on the ready queue.
   */
  function Opportunity(s: Service): (r: Service)
    requires LimboOk(s.limbo)
  {
    if s.limbo != [] then
      var lp := s.limbo[0];
      var size := |lp.packet.contents|;
      if lp.bytesEarned + SERVICE_PACKET_SIZE >= size then
        Spend(SERVICE_PACKET_SIZE - (size - lp.bytesEarned),
              s.(limbo := [], delivered := s.delivered + [lp.packet.contents],
                 totalBytes := s.totalBytes + size, usedBytes := s.usedBytes + size))
      else
        s.(limbo := [lp.(bytesEarned := lp.bytesEarned + SERVICE_PACKET_SIZE)])
    else
      Spend(SERVICE_PACKET_SIZE, s)
  }

  /** Every opportunity grants exactly 1500 bytes of credit and keeps the accounting. */
  lemma {:induction false} OpportunityKeeps(s: Service)
    requires LimboOk(s.limbo)
    ensures Accounted(s, Opportunity(s), SERVICE_PACKET_SIZE)
  {
    if s.limbo != [] {
      var lp := s.limbo[0];
      var size := |lp.packet.contents|;
      if lp.bytesEarned + SERVICE_PACKET_SIZE >= size {
        var m := s.(limbo := [], delivered := s.delivered + [lp.packet.contents],
                    totalBytes := s.totalBytes + size, usedBytes := s.usedBytes + size);
        assert Flow(m) == Flow(s);
        SpendKeeps(SERVICE_PACKET_SIZE - (size - lp.bytesEarned), m);
      }
    } else {
      SpendKeeps(SERVICE_PACKET_SIZE, s);
    }
  }

  /** A packet enters limbo only when the credit left is short of its size. */
  lemma {:induction false} LimboOnlyWhenShort(credit: int, s: Service)
    requires 0 < credit && s.limbo == [] && s.pdp != []
    ensures Spend(credit, s).limbo != [] && Spend(credit, s).pdp == s.pdp[1..]
            <==> credit < |s.pdp[0].contents|
  {
    if credit >= |s.pdp[0].contents| {
      var next := s.(pdp := s.pdp[1..], delivered := s.delivered + [s.pdp[0].contents],
                     totalBytes := s.totalBytes + |s.pdp[0].contents|,
                     usedBytes := s.usedBytes + |s.pdp[0].contents|);
      SpendShrinks(credit - |s.pdp[0].contents|, next);
    }
  }

  /** Spending never puts anything back on the ready queue. */
  lemma {:induction false} SpendShrinks(credit: int, s: Service)
    requires credit >= 0 && (credit > 0 ==> s.limbo == [])
    ensures |Spend(credit, s).pdp| <= |s.pdp|
    ensures credit > 0 && Spend(credit, s).limbo != [] ==> |Spend(credit, s).pdp| < |s.pdp|
    decreases |s.pdp|
  {
    if credit > 0 && s.pdp != [] && credit >= |s.pdp[0].contents| {
      var next := s.(pdp := s.pdp[1..], delivered := s.delivered + [s.pdp[0].contents],
                     totalBytes := s.totalBytes + |s.pdp[0].contents|,
                     usedBytes := s.usedBytes + |s.pdp[0].contents|);
      SpendShrinks(credit - |s.pdp[0].contents|, next);
    }
  }

  /** n opportunities in a row. */
  function Opportunities(s: Service, n: nat): (r: Service)
    requires LimboOk(s.limbo)
    ensures LimboOk(r.limbo)
    decreases n
  {
    if n == 0 then s
    else
      OpportunityKeeps(s);
      Opportunities(Opportunity(s), n - 1)
  }

  /** Over n opportunities the emulator's capacity, counting what limbo carries, grows by exactly n times 1500 bytes. */
  lemma {:induction false} OpportunitiesKeep(s: Service, n: nat)
    requires LimboOk(s.limbo)
    ensures Accounted(s, Opportunities(s, n), n * SERVICE_PACKET_SIZE)
    decreases n
  {
    if n > 0 {
      OpportunityKeeps(s);
      OpportunitiesKeep(Opportunity(s), n - 1);
      AccountedTrans(s, Opportunity(s), Opportunities(s, n), SERVICE_PACKET_SIZE, (n - 1) * SERVICE_PACKET_SIZE);
    } else {
      assert Flow(s) == Flow(s);
    }
  }

  /**
   * The service state a tick leaves before its counters roll: the packets
   * released from the delay line join the back of the ready queue, then
   * the due opportunities are served one after another. Its capacity,
   * counting what limbo carries, grows by exactly 1500 bytes for each.
   */
  function Served(s: Service, released: seq<DelayedPacket>, opportunities: nat): (r: Service)
    requires LimboOk(s.limbo)
    ensures Accounted(s.(pdp := s.pdp + released), r, opportunities * SERVICE_PACKET_SIZE)
  {
    OpportunitiesKeep(s.(pdp := s.pdp + released), opportunities);
    Opportunities(s.(pdp := s.pdp + released), opportunities)
  }

  class DelayQueue {
    const msDelay: nat
    var delay: seq<DelayedPacket>
    var pdp: seq<DelayedPacket>
    var limbo: seq<PartialPacket>
    var schedule: seq<nat>
    var delivered: seq<seq<byte>>
    var totalBytes: nat
    var usedBytes: nat
    var binSec: nat
    /** The latest timestamp the emulator has read; the clock never goes backwards. */
    ghost var clock: nat
    /** Every packet written so far, and every packet read out so far. */
    ghost var written: seq<seq<byte>>
    ghost var handedOut: seq<seq<byte>>

    ghost function ServiceState(): Service
      reads this
    {
      Service(pdp, limbo, delivered, totalBytes, usedBytes)
    }

    /**
     * Limbo holds at most one under-paid packet, use never exceeds
     * capacity, the schedule is in time order, the delay line releases in
     * entry order, and nothing is lost or reordered: what has been read out,
     * what is delivered, and what is waiting are together what was written.
     */
    ghost predicate Valid()
      reads this
    {
      LimboOk(limbo) && usedBytes <= totalBytes && Sorted(schedule)
      && DelayLine(delay, msDelay, clock)
      && Conserved(handedOut, Flow(ServiceState()), delay, written)
    }

    constructor (sMsDelay: nat, offsets: seq<nat>, baseTimestamp: nat, now: nat)
      requires Sorted(offsets)
      ensures Valid()
      ensures msDelay == sMsDelay && binSec == now / 1000 && clock == now
      ensures |schedule| == |offsets| && forall i :: 0 <= i < |offsets| ==> schedule[i] == offsets[i] + baseTimestamp
      ensures delay == [] && pdp == [] && limbo == [] && delivered == []
      ensures totalBytes == 0 && usedBytes == 0 && written == [] && handedOut == []
    {
      msDelay := sMsDelay;
      delay := [];
      pdp := [];
      limbo := [];
      schedule := Shifted(offsets, baseTimestamp);
      delivered := [];
      totalBytes := 0;
      usedBytes := 0;
      binSec := now / 1000;
      clock := now;
      written := [];
      handedOut := [];
    }

    /** Enqueue a packet on the delay line, to be released msDelay from now. */
    method Write(now: nat, packet: seq<byte>)
      requires Valid() && now >= clock
      modifies this
      ensures Valid() && clock == now
      ensures delay == old(delay) + [DelayedPacket(now, now + msDelay, packet)]
      ensures written == old(written) + [packet]
      ensures pdp == old(pdp) && limbo == old(limbo) && schedule == old(schedule) && delivered == old(delivered)
      ensures totalBytes == old(totalBytes) && usedBytes == old(usedBytes) && binSec == old(binSec)
      ensures handedOut == old(handedOut)
    {
      var p := DelayedPacket(now, now + msDelay, packet);
      ConservedWrite(handedOut, Flow(ServiceState()), delay, written, p);
      DelayLineAppend(delay, msDelay, clock, now, packet);
      delay := delay + [p];
      clock := now;
      written := written + [packet];
    }

    /**
     * Everything delivered up to now, in delivery order: what was waiting to
     * be read plus what this read's tick delivers. The delivered list starts
     * over empty.
     */
    method Read(now: nat) returns (ret: seq<seq<byte>>)
      requires Valid() && now >= clock
      modifies this
      ensures Valid() && clock == now && delivered == []
      ensures TickResult(old(delay), old(schedule), old(ServiceState()), old(binSec), now,
                         delay, schedule, pdp, limbo, ret, totalBytes, usedBytes, binSec)
      ensures old(delivered) <= ret
      ensures handedOut == old(handedOut) + ret
      ensures written == old(written)
    {
      Tick(now);
      ghost var delay1, schedule1, pdp1, limbo1, out1 := delay, schedule, pdp, limbo, delivered;
      ghost var total1, used1, bin1 := totalBytes, usedBytes, binSec;
      ret := HandOut();
      assert delay == delay1 && schedule == schedule1 && pdp == pdp1 && limbo == limbo1 && ret == out1;
      assert totalBytes == total1 && usedBytes == used1 && binSec == bin1;
    }

    /** The end of read: the delivered list is handed out whole and starts over empty. */
    method HandOut() returns (ret: seq<seq<byte>>)
      requires Valid()
      modifies this`delivered, this`handedOut
      ensures Valid() && ret == old(delivered) && delivered == []
      ensures handedOut == old(handedOut) + ret
    {
      ret := delivered;
      ConservedRead(handedOut, ret, Waiting(ServiceState()), delay, written);
      assert Flow(ServiceState().(delivered := [])) == Waiting(ServiceState());
      delivered := [];
      handedOut := handedOut + ret;
    }

    /**
     * Milliseconds until the next event: the head of the delay line coming
     * due or the next delivery opportunity, whichever is sooner, and
     * INT_MAX when there is neither.
     */
    method WaitTime(now: nat) returns (w: int)
      requires Valid() && now >= clock
      modifies this
      ensures Valid() && clock == now && written == old(written) && handedOut == old(handedOut)
      ensures TickResult(old(delay), old(schedule), old(ServiceState()), old(binSec), now,
                         delay, schedule, pdp, limbo, delivered, totalBytes, usedBytes, binSec)
      ensures w > 0
      ensures delay == [] && schedule == [] ==> w == INT_MAX
      ensures delay != [] ==> w <= delay[0].releaseTime - now
      ensures schedule != [] ==> w <= schedule[0] - now
      ensures w == INT_MAX || (delay != [] && w == delay[0].releaseTime - now)
                           || (schedule != [] && w == schedule[0] - now)
    {
      var delayWait, scheduleWait := INT_MAX, INT_MAX;
      Tick(now);
      if delay != [] {
        delayWait := delay[0].releaseTime - now;
        if delayWait < 0 {
          delayWait := 0;
        }
      }
      if schedule != [] {
        scheduleWait := schedule[0] - now;
        assert scheduleWait >= 0;
      }
      w := if delayWait <= scheduleWait then delayWait else scheduleWait;
    }

    /** Move every packet now due from the delay line to the ready queue, preserving order, then serve and roll the counters. */
    method Tick(now: nat)
      requires Valid() && now >= clock
      modifies this
      ensures Valid() && clock == now && written == old(written) && handedOut == old(handedOut)
      ensures TickResult(old(delay), old(schedule), old(ServiceState()), old(binSec), now,
                         delay, schedule, pdp, limbo, delivered, totalBytes, usedBytes, binSec)
      ensures old(delivered) <= delivered
    {
      Release(now);
      Serve(now);
      TickComposes(old(delay), old(schedule), old(ServiceState()), old(binSec), now,
                   delay, schedule, pdp, limbo, delivered, totalBytes, usedBytes, binSec);
    }

    /** The first half of tick: the clock moves to now and the packets due by then move to the ready queue. */
    method Release(now: nat)
      requires Valid() && now >= clock
      modifies this
      ensures Valid() && clock == now && written == old(written) && handedOut == old(handedOut)
      ensures DrainedBy(old(delay), now, delay)
      ensures ServiceState() == old(ServiceState()).(pdp := old(pdp) + old(delay)[..|old(delay)| - |delay|])
      ensures schedule == old(schedule) && binSec == old(binSec)
    {
      DelayLineLater(delay, msDelay, clock, now);
      clock := now;
      MoveReleased(now);
    }

    /** The second half of tick: the opportunities due by now are served, then the per-second counters roll. */
    method Serve(now: nat)
      requires Valid()
      modifies this
      ensures Valid() && clock == old(clock) && written == old(written) && handedOut == old(handedOut)
      ensures delay == old(delay) && old(delivered) <= delivered
      ensures ServedBy(old(schedule), old(ServiceState()), old(binSec), now,
                       schedule, pdp, limbo, delivered, totalBytes, usedBytes, binSec)
    {
      ServeDue(now);
      ghost var s1 := ServiceState();
      assert s1 == Opportunities(old(ServiceState()), |old(schedule)| - |schedule|);
      AdvanceBins(now);
    }

    /** The first loop of tick: packets whose release time has come move, in order, to the ready queue. */
    method MoveReleased(now: nat)
      requires Valid() && now == clock
      modifies this
      ensures Valid()
      ensures |delay| <= |old(delay)| && Released(old(delay), old(pdp), |old(delay)| - |delay|, now)
      ensures forall i :: 0 <= i < |delay| ==> delay[i].releaseTime > now
      ensures limbo == old(limbo) && schedule == old(schedule) && delivered == old(delivered)
      ensures totalBytes == old(totalBytes) && usedBytes == old(usedBytes) && binSec == old(binSec)
      ensures clock == old(clock) && written == old(written) && handedOut == old(handedOut)
    {
      ghost var delay0 := delay;
      ghost var pdp0 := pdp;
      ghost var k := 0;
      while delay != [] && delay[0].releaseTime <= now
        invariant Released(delay0, pdp0, k, now)
        invariant Valid()
        invariant limbo == old(limbo) && schedule == old(schedule) && delivered == old(delivered)
        invariant totalBytes == old(totalBytes) && usedBytes == old(usedBytes) && binSec == old(binSec)
        invariant clock == old(clock) && written == old(written) && handedOut == old(handedOut)
        decreases |delay|
      {
        MoveHead(delay0, pdp0, k, now);
        k := k + 1;
      }
    }

    /**
     * The first k packets of the delay line as it was, all due by now, have
     * moved in order to the back of the ready queue, and the rest of the
     * line is still waiting.
     */
    ghost predicate Released(delay0: seq<DelayedPacket>, pdp0: seq<DelayedPacket>, k: int, now: nat)
      reads this
    {
      0 <= k <= |delay0| && delay == delay0[k..] && pdp == pdp0 + delay0[..k]
      && forall i :: 0 <= i < k ==> delay0[i].releaseTime <= now
    }

    /** The head of the delay line goes to the back of the ready queue. */
    method MoveHead(ghost delay0: seq<DelayedPacket>, ghost pdp0: seq<DelayedPacket>, ghost k: int, now: nat)
      requires Valid() && delay != [] && delay[0].releaseTime <= now && Released(delay0, pdp0, k, now)
      modifies this
      ensures Valid() && Released(delay0, pdp0, k + 1, now)
      ensures delay == old(delay)[1..] && pdp == old(pdp) + [old(delay)[0]]
      ensures limbo == old(limbo) && schedule == old(schedule) && delivered == old(delivered)
      ensures totalBytes == old(totalBytes) && usedBytes == old(usedBytes) && binSec == old(binSec)
      ensures clock == old(clock) && written == old(written) && handedOut == old(handedOut)
    {
      DelayLineTail(delay, msDelay, clock);
      ConservedMove(handedOut, Flow(ServiceState()), delay, written);
      FlowPush(ServiceState(), delay[0]);
      pdp := pdp + [delay[0]];
      delay := delay[1..];
      assert delay0[..k + 1] == delay0[..k] + [delay0[k]];
    }

    /** Serve every delivery opportunity whose time has come, in schedule order. */
    method ServeDue(now: nat)
      requires Valid()
      modifies this
      ensures Valid()
      ensures |schedule| <= |old(schedule)| && schedule == old(schedule)[|old(schedule)| - |schedule|..]
      ensures forall i :: 0 <= i < |old(schedule)| - |schedule| ==> old(schedule)[i] <= now
      ensures forall i :: 0 <= i < |schedule| ==> schedule[i] > now
      ensures ServiceState() == Opportunities(old(ServiceState()), |old(schedule)| - |schedule|)
      ensures old(delivered) <= delivered
      ensures delay == old(delay) && binSec == old(binSec)
      ensures clock == old(clock) && written == old(written) && handedOut == old(handedOut)
    {
      ghost var schedule0 := schedule;
      ghost var start := ServiceState();
      ghost var k := 0;
      while schedule != [] && schedule[0] <= now
        invariant 0 <= k <= |schedule0| && schedule == schedule0[k..]
        invariant forall i :: 0 <= i < k ==> schedule0[i] <= now
        invariant Valid()
        invariant ServiceState() == Opportunities(start, k) && old(delivered) <= delivered
        invariant delay == old(delay) && binSec == old(binSec)
        invariant clock == old(clock) && written == old(written) && handedOut == old(handedOut)
        decreases |schedule|
      {
        SortedTail(schedule);
        schedule := schedule[1..];
        ServeOne();
        OpportunitiesStep(start, k);
        k := k + 1;
      }
    }

    /** One delivery opportunity, as the body of tick's schedule loop spends it. */
    method ServeOne()
      requires Valid()
      modifies this
      ensures Valid()
      ensures ServiceState() == Opportunity(old(ServiceState())) && old(delivered) <= delivered
      ensures delay == old(delay) && schedule == old(schedule) && binSec == old(binSec)
      ensures clock == old(clock) && written == old(written) && handedOut == old(handedOut)
    {
      ghost var start := ServiceState();
      OpportunityKeeps(start);
      var credit := PayLimbo();
      ghost var target := Opportunity(start);
      while credit > 0
        invariant credit >= 0 && (credit > 0 ==> limbo == [])
        invariant Spend(credit, ServiceState()) == target
        invariant delay == old(delay) && schedule == old(schedule) && binSec == old(binSec)
        invariant clock == old(clock) && written == old(written) && handedOut == old(handedOut)
        decreases |pdp| + (if credit > 0 then 1 else 0)
      {
        credit := SpendOne(credit);
      }
    }

    /**
     * The start of an opportunity: its 1500 bytes go first to the packet in
     * limbo, which is delivered once it has earned its size; the credit
     * left over is returned.
     */
    method PayLimbo() returns (credit: int)
      requires LimboOk(limbo)
      modifies this
      ensures credit >= 0 && (credit > 0 ==> limbo == [])
      ensures Spend(credit, ServiceState()) == Opportunity(old(ServiceState()))
      ensures pdp == old(pdp) && delay == old(delay) && schedule == old(schedule) && binSec == old(binSec)
      ensures clock == old(clock) && written == old(written) && handedOut == old(handedOut)
    {
      credit := SERVICE_PACKET_SIZE;
      if limbo != [] {
        var size := |limbo[0].packet.contents|;
        if limbo[0].bytesEarned + credit >= size {
          totalBytes := totalBytes + size;
          usedBytes := usedBytes + size;
          delivered := delivered + [limbo[0].packet.contents];
          credit := credit - (size - limbo[0].bytesEarned);
          limbo := [];
        } else {
          limbo := [limbo[0].(bytesEarned := limbo[0].bytesEarned + credit)];
          credit := 0;
        }
      }
    }

    /** One pass of the credit loop: an underflow, a whole packet delivered, or a packet put in limbo. */
    method SpendOne(credit: int) returns (rest: int)
      requires credit > 0 && limbo == []
      modifies this
      ensures rest >= 0 && (rest > 0 ==> limbo == [])
      ensures Spend(rest, ServiceState()) == Spend(credit, old(ServiceState()))
      ensures |pdp| + (if rest > 0 then 1 else 0) < |old(pdp)| + 1
      ensures delay == old(delay) && schedule == old(schedule) && binSec == old(binSec)
      ensures clock == old(clock) && written == old(written) && handedOut == old(handedOut)
    {
      if pdp == [] {
        totalBytes := totalBytes + credit;
        rest := 0;
      } else {
        var packet := pdp[0];
        pdp := pdp[1..];
        if credit >= |packet.contents| {
          totalBytes := totalBytes + |packet.contents|;
          usedBytes := usedBytes + |packet.contents|;
          delivered := delivered + [packet.contents];
          rest := credit - |packet.contents|;
        } else {
          limbo := [PartialPacket(credit, packet)];
          rest := credit - limbo[0].bytesEarned;
        }
      }
    }

    /** The end of tick: per-second counters restart each time the clock passes into a new second. */
    method AdvanceBins(now: nat)
      modifies this
      ensures binSec == if now / 1000 > old(binSec) then now / 1000 else old(binSec)
      ensures now / 1000 > old(binSec) ==> totalBytes == 0 && usedBytes == 0
      ensures now / 1000 <= old(binSec) ==> totalBytes == old(totalBytes) && usedBytes == old(usedBytes)
      ensures delay == old(delay) && pdp == old(pdp) && limbo == old(limbo) && schedule == old(schedule)
      ensures delivered == old(delivered) && clock == old(clock) && written == old(written) && handedOut == old(handedOut)
    {
      while now / 1000 > binSec
        invariant binSec <= if now / 1000 > old(binSec) then now / 1000 else old(binSec)
        invariant binSec >= old(binSec)
        invariant binSec > old(binSec) ==> totalBytes == 0 && usedBytes == 0
        invariant binSec == old(binSec) ==> totalBytes == old(totalBytes) && usedBytes == old(usedBytes)
        invariant delay == old(delay) && pdp == old(pdp) && limbo == old(limbo) && schedule == old(schedule)
        invariant delivered == old(delivered) && clock == old(clock) && written == old(written) && handedOut == old(handedOut)
        decreases now / 1000 - binSec
      {
        totalBytes := 0;
        usedBytes := 0;
        binSec := binSec + 1;
      }
    }
  }

  lemma {:induction false} OpportunitiesStep(s: Service, n: nat)
    requires LimboOk(s.limbo)
    ensures Opportunities(s, n + 1) == Opportunity(Opportunities(s, n))
    decreases n
  {
    if n > 0 {
      OpportunityKeeps(s);
      OpportunitiesStep(Opportunity(s), n - 1);
    }
  }

  /** Releasing a packet to the back of the ready queue extends the flow by that packet. */
  lemma {:induction false} FlowPush(s: Service, p: DelayedPacket)
    ensures Flow(s.(pdp := s.pdp + [p])) == Flow(s) + [p.contents]
  {
    ContentsAppend(s.pdp, [p]);
    assert Contents([p]) == [p.contents];
  }
}
