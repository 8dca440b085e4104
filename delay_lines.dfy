/**
 * What the two link emulators, cellsim and cellproxy, share: packets
 * written to the link wait on a delay line for a fixed number of
 * milliseconds, then queue for delivery opportunities read from a trace
 * of millisecond timestamps.
 */
module DelayLines {
  import opened Bytes

  /** A packet on the link: when it was written, when the delay line releases it, and its bytes. */
  datatype DelayedPacket = DelayedPacket(entryTime: nat, releaseTime: nat, contents: seq<byte>)

  function Contents(ps: seq<DelayedPacket>): seq<seq<byte>>
  {
    if ps == [] then [] else [ps[0].contents] + Contents(ps[1..])
  }

  lemma {:induction false} ContentsAppend(a: seq<DelayedPacket>, b: seq<DelayedPacket>)
    ensures Contents(a + b) == Contents(a) + Contents(b)
  {
    if a != [] {
      assert (a + b)[1..] == a[1..] + b;
      ContentsAppend(a[1..], b);
    } else {
      assert a + b == b;
    }
  }

  /** A delivery trace: opportunities in non-decreasing time order. */
  predicate Sorted(s: seq<nat>)
  {
    forall i, j :: 0 <= i < j < |s| ==> s[i] <= s[j]
  }

  lemma {:induction false} SortedTail(s: seq<nat>)
    requires s != [] && Sorted(s)
    ensures Sorted(s[1..])
  {
  }

  /** The trace read from a file: each offset shifted by the base timestamp, order kept. */
  function Shifted(offsets: seq<nat>, base: nat): (schedule: seq<nat>)
    requires Sorted(offsets)
    ensures Sorted(schedule) && |schedule| == |offsets|
    ensures forall i :: 0 <= i < |offsets| ==> schedule[i] == offsets[i] + base
  {
    seq(|offsets|, i requires 0 <= i < |offsets| => offsets[i] + base)
  }

  /**
   * Every packet on the delay line was written no later than the clock and
   * is released exactly msDelay after it was written, so the line releases
   * packets in the order they were written.
   */
  predicate DelayLine(delay: seq<DelayedPacket>, msDelay: nat, clock: nat)
  {
    (forall i :: 0 <= i < |delay| ==> delay[i].releaseTime == delay[i].entryTime + msDelay && delay[i].entryTime <= clock)
    && (forall i, j :: 0 <= i < j < |delay| ==> delay[i].releaseTime <= delay[j].releaseTime)
  }

  lemma {:induction false} DelayLineTail(delay: seq<DelayedPacket>, msDelay: nat, clock: nat)
    requires delay != [] && DelayLine(delay, msDelay, clock)
    ensures DelayLine(delay[1..], msDelay, clock)
  {
  }

  /** A packet written at a time no earlier than any before it keeps the line in release order. */
  lemma {:induction false} DelayLineAppend(delay: seq<DelayedPacket>, msDelay: nat, clock: nat, now: nat, contents: seq<byte>)
    requires DelayLine(delay, msDelay, clock) && clock <= now
    ensures DelayLine(delay + [DelayedPacket(now, now + msDelay, contents)], msDelay, now)
  {
  }

  lemma {:induction false} DelayLineLater(delay: seq<DelayedPacket>, msDelay: nat, clock: nat, now: nat)
    requires DelayLine(delay, msDelay, clock) && clock <= now
    ensures DelayLine(delay, msDelay, now)
  {
  }

  /**
   * Nothing is lost, duplicated or reordered: the packets already read out,
   * then those queued past the delay line (delivered or still waiting),
   * then those on the delay line, are exactly the packets written.
   */
  predicate Conserved(handedOut: seq<seq<byte>>, queued: seq<seq<byte>>, delay: seq<DelayedPacket>, written: seq<seq<byte>>)
  {
    handedOut + queued + Contents(delay) == written
  }

  /** Releasing the head of the delay line to the back of the queue. */
  lemma {:induction false} ConservedMove(h: seq<seq<byte>>, q: seq<seq<byte>>, delay: seq<DelayedPacket>, written: seq<seq<byte>>)
    requires delay != [] && Conserved(h, q, delay, written)
    ensures Conserved(h, q + [delay[0].contents], delay[1..], written)
  {
    assert Contents(delay) == [delay[0].contents] + Contents(delay[1..]);
    assert h + q + Contents(delay) == h + (q + [delay[0].contents]) + Contents(delay[1..]);
  }

  /** Writing a packet to the back of the delay line. */
  lemma {:induction false} ConservedWrite(h: seq<seq<byte>>, q: seq<seq<byte>>, delay: seq<DelayedPacket>,
                                          written: seq<seq<byte>>, p: DelayedPacket)
    requires Conserved(h, q, delay, written)
    ensures Conserved(h, q, delay + [p], written + [p.contents])
  {
    ContentsAppend(delay, [p]);
    assert Contents([p]) == [p.contents];
  }

  /** Reading out the packets at the front of the queue. */
  lemma {:induction false} ConservedRead(h: seq<seq<byte>>, out: seq<seq<byte>>, rest: seq<seq<byte>>,
                                         delay: seq<DelayedPacket>, written: seq<seq<byte>>)
    requires Conserved(h, out + rest, delay, written)
    ensures Conserved(h + out, rest, delay, written)
  {
    assert h + (out + rest) == (h + out) + rest;
  }
}
