/** A clock that is steered toward network time by slewing: it never steps and never runs backwards. */
module SlewedClock {
  import opened Basics
  import opened Wrappers

  /** One million, the unit of a slew rate. */
  const PPM: nat := 1_000_000

  const I128_MAX: int := 0x7FFF_FFFF_FFFF_FFFF_FFFF_FFFF_FFFF_FFFF

  const U64_MAX: int := 0xFFFF_FFFF_FFFF_FFFF

  function Saturated(x: int): (r: int)
    ensures -I128_MAX - 1 <= x <= I128_MAX ==> r == x
  {
    if x > I128_MAX then I128_MAX else if x < -I128_MAX - 1 then -I128_MAX - 1 else x
  }

  /** An anchored clock: unix and monotonic nanoseconds at the anchor, and the correction not yet applied. */
  datatype Clock = Clock(anchorMono: nat, anchorUnix: int, pending: int, ppm: nat)

  function Elapsed(c: Clock, now: nat): nat
  {
    if now >= c.anchorMono then now - c.anchorMono else 0
  }

  /** The most a correction may have moved the clock after `elapsed`. */
  function MaxAdjust(elapsed: nat, ppm: nat): nat
  {
    Saturated(elapsed * ppm) / PPM
  }

  function Applied(pending: int, most: int): int
    requires most >= 0
  {
    if pending >= 0 then (if pending <= most then pending else most)
    else (if -pending <= most then pending else -most)
  }

  function AppliedAt(c: Clock, now: nat): int
  {
    Applied(c.pending, MaxAdjust(Elapsed(c, now), c.ppm))
  }

  function Read(c: Clock, now: nat): int
  {
    Saturated(Saturated(c.anchorUnix + Elapsed(c, now)) + AppliedAt(c, now))
  }

  /** Re-anchors at the current reading; what is left of the old correction is kept, and the new one is added to it. */
  function Steer(c: Clock, now: nat, targetNs: int): Clock
  {
    Clock(now, Read(c, now), Saturated(Saturated(c.pending - AppliedAt(c, now)) + Saturated(targetNs - Read(c, now))),
        c.ppm)
  }

  // -------------------------------------------------------------------------
  // Reachable clocks
  // -------------------------------------------------------------------------

  /** Slew rates stay below one; readings stay far away from the ends of the integer type. */
  ghost predicate Sane(c: Clock)
  {
    && c.ppm < PPM && c.anchorMono <= U64_MAX
    && 0 <= c.anchorUnix <= U64_MAX * PPM + 2 * c.anchorMono
  }

  /** The reading without saturation. */
  function Plain(c: Clock, now: nat): int
  {
    c.anchorUnix + Elapsed(c, now) + AppliedAt(c, now)
  }

  lemma {:induction false} RoundedDown(n: nat)
    ensures n / PPM * PPM <= n < n / PPM * PPM + PPM
  {
  }

  lemma {:induction false} RoundedBelow(n: nat, elapsed: nat)
    requires n <= elapsed * PPM
    ensures n / PPM <= elapsed
  {
  }

  /** Realistic products of time and rate do not saturate. */
  lemma {:induction false} MaxAdjustIs(elapsed: nat, ppm: nat)
    requires elapsed * ppm <= U64_MAX * PPM
    ensures MaxAdjust(elapsed, ppm) == elapsed * ppm / PPM
  {
  }

  lemma {:induction false} AdjustBelowElapsed(elapsed: nat, ppm: nat)
    requires ppm < PPM && elapsed <= U64_MAX
    ensures MaxAdjust(elapsed, ppm) <= elapsed
    ensures MaxAdjust(elapsed, ppm) * PPM <= elapsed * ppm < MaxAdjust(elapsed, ppm) * PPM + PPM
  {
    hide MaxAdjust;
    var n := elapsed * ppm;
    ProductGrows(elapsed, ppm, PPM);
    MaxAdjustIs(elapsed, ppm);
    RoundedDown(n);
    RoundedBelow(n, elapsed);
  }

  /** A correction never outweighs the time that passes. */
  lemma {:induction false} PlainBounds(c: Clock, now: nat)
    requires Sane(c) && c.anchorMono <= now <= U64_MAX
    ensures c.anchorUnix <= Plain(c, now) <= c.anchorUnix + 2 * Elapsed(c, now)
    ensures Read(c, now) == Plain(c, now)
  {
    hide MaxAdjust;
    AdjustBelowElapsed(Elapsed(c, now), c.ppm);
  }

  lemma {:induction false} SteerStaysSane(c: Clock, now: nat, targetNs: int)
    requires Sane(c) && c.anchorMono <= now <= U64_MAX
    ensures Sane(Steer(c, now, targetNs))
  {
    hide Read, AppliedAt, Saturated;
    PlainBounds(c, now);
  }

  /** So is the clock that the first steer sets. */
  lemma {:induction false} FirstSteerIsSane(now: nat, targetMs: nat, ppm: nat)
    requires now <= U64_MAX && targetMs <= U64_MAX && ppm < PPM
    ensures Sane(FirstSet(now, targetMs, ppm))
  {
  }

  // -------------------------------------------------------------------------
  // Between two readings of one anchor
  // -------------------------------------------------------------------------

  /** Rounding `p` and `q` millionths down to `x` and `y`. */
  lemma {:induction false} RoundedGrowth(p: nat, q: nat, x: nat, y: nat, d: nat)
    requires x * PPM <= p < x * PPM + PPM && y * PPM <= q < y * PPM + PPM
    requires p <= q <= p + d * (PPM - 1)
    ensures 0 <= y - x <= d && (y - x) * PPM <= q - p + (if p == 0 then 0 else PPM - 1)
  {
  }

  /** How far a correction may move between two readings, in millionths of a nanosecond. */
  lemma {:induction false} AdjustGrowth(a: nat, b: nat, ppm: nat)
    requires a <= b <= U64_MAX && ppm < PPM
    ensures 0 <= MaxAdjust(b, ppm) - MaxAdjust(a, ppm) <= b - a
    ensures (MaxAdjust(b, ppm) - MaxAdjust(a, ppm)) * PPM <= (b - a) * ppm + (if a == 0 then 0 else PPM - 1)
  {
    hide MaxAdjust;
    AdjustBelowElapsed(a, ppm);
    AdjustBelowElapsed(b, ppm);
    assert a * ppm + (b - a) * ppm == b * ppm;
    ProductGrows(b - a, ppm, PPM - 1);
    RoundedGrowth(a * ppm, b * ppm, MaxAdjust(a, ppm), MaxAdjust(b, ppm), b - a);
  }

  lemma {:induction false} AppliedGrowth(pending: int, x: nat, y: nat)
    requires x <= y
    ensures -(y - x) <= Applied(pending, y) - Applied(pending, x) <= y - x
  {
  }

  /** Tolerance when a measurement starts between two anchors: the rounding of the first reading. */
  function Slack(c: Clock, from: nat): nat
  {
    if from == c.anchorMono then 0 else PPM - 1
  }

  /** `r1` at `t1` is no earlier than `r0` at `t0`, and the rate error is bounded. */
  ghost predicate Tracks(r0: int, t0: nat, r1: int, t1: nat, ppm: nat, slack: nat)
  {
    && r0 <= r1
    && -((t1 - t0) * ppm + slack) <= (r1 - r0 - (t1 - t0)) * PPM <= (t1 - t0) * ppm + slack
  }

  lemma {:induction false} SegmentTracks(c: Clock, t0: nat, t1: nat)
    requires Sane(c) && c.anchorMono <= t0 <= t1 <= U64_MAX
    ensures Tracks(Read(c, t0), t0, Read(c, t1), t1, c.ppm, Slack(c, t0))
  {
    hide MaxAdjust, Applied, Read;
    PlainBounds(c, t0);
    PlainBounds(c, t1);
    var x, y := MaxAdjust(Elapsed(c, t0), c.ppm), MaxAdjust(Elapsed(c, t1), c.ppm);
    AdjustGrowth(Elapsed(c, t0), Elapsed(c, t1), c.ppm);
    AppliedGrowth(c.pending, x, y);
    var dx := Applied(c.pending, y) - Applied(c.pending, x);
    assert dx * PPM <= (y - x) * PPM && dx * PPM >= -((y - x) * PPM);
  }

  // -------------------------------------------------------------------------
  // Whole runs
  // -------------------------------------------------------------------------

  datatype SteerEvent = SteerEvent(now: nat, target: int)

  function RunSteers(c: Clock, events: seq<SteerEvent>): Clock
    decreases |events|
  {
    if events == [] then c else RunSteers(Steer(c, events[0].now, events[0].target), events[1..])
  }

  /** Monotonic time does not go back between `from`, the steers and `to`. */
  ghost predicate InOrder(from: nat, events: seq<SteerEvent>, to: nat)
    decreases |events|
  {
    if events == [] then from <= to <= U64_MAX
    else from <= events[0].now <= U64_MAX && InOrder(events[0].now, events[1..], to)
  }

  lemma {:induction false} TracksChain(r0: int, t0: nat, r1: int, t1: nat, r2: int, t2: nat, ppm: nat, slack: nat)
    requires t0 <= t1 <= t2 && Tracks(r0, t0, r1, t1, ppm, slack) && Tracks(r1, t1, r2, t2, ppm, 0)
    ensures Tracks(r0, t0, r2, t2, ppm, slack)
  {
    assert (t2 - t0) * ppm == (t2 - t1) * ppm + (t1 - t0) * ppm;
  }

  lemma {:induction false} ReadAfterSteer(c: Clock, now: nat, target: int)
    requires Sane(c) && c.anchorMono <= now <= U64_MAX
    ensures Read(Steer(c, now, target), now) == Read(c, now)
  {
    var s := Steer(c, now, target);
    SteerStaysSane(c, now, target);
    PlainBounds(s, now);
    PlainBounds(c, now);
    assert Elapsed(s, now) == 0;
  }

  /**
    Over any interleaving of reads and steers the reading never decreases, and gains or loses against
    monotonic time at most the slew rate and one nanosecond of rounding in all.
   */
  lemma {:induction false} RunTracks(c: Clock, t0: nat, events: seq<SteerEvent>, t1: nat)
    requires Sane(c) && c.anchorMono <= t0 && InOrder(t0, events, t1)
    ensures t0 <= t1
    ensures Tracks(Read(c, t0), t0, Read(RunSteers(c, events), t1), t1, c.ppm, Slack(c, t0))
    decreases |events|
  {
    if events == [] {
      SegmentTracks(c, t0, t1);
    } else {
      var at, target := events[0].now, events[0].target;
      hide Read, Steer, Slack, Tracks, Sane;
      SegmentTracks(c, t0, at);
      SteerStaysSane(c, at, target);
      ReadAfterSteer(c, at, target);
      var s := Steer(c, at, target);
      SteerAnchors(c, at, target);
      RunTracks(s, at, events[1..], t1);
      NoSlackAtAnchor(s);
      TracksChain(Read(c, t0), t0, Read(c, at), at, Read(RunSteers(c, events), t1), t1, c.ppm, Slack(c, t0));
    }
  }

  /** A new clock's rate, kept below a million parts per million. */
  function Clamped(maxSlewPpm: nat): nat
  {
    if maxSlewPpm < PPM then maxSlewPpm else PPM - 1
  }

  /** The clock that the first steer sets. */
  function FirstSet(now: nat, targetMs: nat, ppm: nat): Clock
  {
    Clock(now, targetMs * 1_000_000, 0, ppm)
  }

  /**
    From the first steer of a new clock on, whatever rate it was made with: it shows the target at once, and from
    then on never runs backwards and stays within the rate, without any rounding to allow for.
   */
  lemma {:induction false} FreshClockTracks(maxSlewPpm: nat, start: nat, targetMs: nat, events: seq<SteerEvent>,
      end: nat)
    requires targetMs <= U64_MAX && start <= U64_MAX && InOrder(start, events, end)
    ensures var c := FirstSet(start, targetMs, Clamped(maxSlewPpm));
            var ppm := if maxSlewPpm < 1_000_000 then maxSlewPpm else 999_999;
            && start <= end && Read(c, start) == targetMs * 1_000_000
            && Tracks(targetMs * 1_000_000, start, Read(RunSteers(c, events), end), end, ppm, 0)
  {
    hide Read, Steer, Tracks, RunSteers, Sane, InOrder;
    var c := FirstSet(start, targetMs, Clamped(maxSlewPpm));
    FirstSteerIsSane(start, targetMs, Clamped(maxSlewPpm));
    RunTracks(c, start, events, end);
    NoSlackAtAnchor(c);
    PlainBounds(c, start);
  }

  lemma {:induction false} SteerAnchors(c: Clock, now: nat, target: int)
    ensures Steer(c, now, target).anchorMono == now && Steer(c, now, target).ppm == c.ppm
  {
  }

  lemma {:induction false} NoSlackAtAnchor(c: Clock)
    ensures Slack(c, c.anchorMono) == 0
  {
  }

  // -------------------------------------------------------------------------
  // Where steering leads
  // -------------------------------------------------------------------------

  /** The offset from monotonic time once the whole correction is applied. */
  function Settled(c: Clock): int
  {
    c.anchorUnix + c.pending - c.anchorMono
  }

  /** It is what the clock shows once enough time has passed. */
  lemma {:induction false} SettledIsReached(c: Clock, now: nat)
    requires Sane(c) && c.anchorMono <= now <= U64_MAX
    ensures AppliedAt(c, now) == c.pending <==> Read(c, now) - now == Settled(c)
    ensures (if c.pending >= 0 then c.pending else -c.pending) <= MaxAdjust(Elapsed(c, now), c.ppm)
            ==> Read(c, now) - now == Settled(c)
  {
    PlainBounds(c, now);
  }

  /**
    The reading in the open: the anchor, the time since, and as much of the pending correction as the rate has let
    through by then, in whole nanoseconds, forwards or backwards.
   */
  lemma {:induction false} ReadExactly(c: Clock, now: nat)
    requires Sane(c) && c.anchorMono <= now <= U64_MAX
    ensures var elapsed := now - c.anchorMono;
            var most := elapsed * c.ppm / 1_000_000;
            Read(c, now) == c.anchorUnix + elapsed
                            + if c.pending > most then most else if c.pending < -most then -most else c.pending
  {
    hide MaxAdjust;
    PlainBounds(c, now);
    var elapsed := now - c.anchorMono;
    ProductGrows(elapsed, c.ppm, PPM);
    MaxAdjustIs(elapsed, c.ppm);
  }

  /** After the first steer nothing is pending: until the next one the clock shows the target plus the time since. */
  lemma {:induction false} FirstSteerSettles(start: nat, targetMs: nat, ppm: nat, now: nat)
    requires targetMs <= U64_MAX && start <= now <= U64_MAX && ppm < PPM
    ensures var c := FirstSet(start, targetMs, ppm);
            && Read(c, now) == targetMs * 1_000_000 + (now - start)
            && Settled(c) == targetMs * 1_000_000 - start
            && c.ppm == ppm
  {
    hide Read;
    FirstSteerIsSane(start, targetMs, ppm);
    ReadExactly(FirstSet(start, targetMs, ppm), now);
  }

  /** A saturated number is the nearest one in range. */
  lemma {:induction false} SaturatedExactly(x: int)
    ensures var low, high := -0x8000_0000_0000_0000_0000_0000_0000_0000, 0x7FFF_FFFF_FFFF_FFFF_FFFF_FFFF_FFFF_FFFF;
            Saturated(x) == if x > high then high else if x < low then low else x
  {
  }

  /** A monotonic time in front of the anchor reads as the anchor itself: the clock does not run backwards there. */
  lemma {:induction false} ReadBeforeAnchor(c: Clock, now: nat)
    requires Sane(c) && now <= c.anchorMono
    ensures Read(c, now) == c.anchorUnix
  {
  }

  /**
    What a later steer leaves behind: the clock anchored at its own reading, and as pending what was left of the old
    correction and the distance to the target.
   */
  lemma {:induction false} SteerExactly(c: Clock, now: nat, target: int)
    requires Sane(c) && c.anchorMono <= now <= U64_MAX && Unsaturated(c, now, target)
    ensures var s := Steer(c, now, target);
            var elapsed := now - c.anchorMono;
            && s.anchorMono == now && s.anchorUnix == Read(c, now) && s.ppm == c.ppm
            && s.pending == c.pending - (Read(c, now) - c.anchorUnix - elapsed) + (target - Read(c, now))
  {
    hide AppliedAt, Read;
    PlainBounds(c, now);
  }

  /** The correction left over and the new one both fit the integer type. */
  ghost predicate Unsaturated(c: Clock, now: nat, target: int)
  {
    && -I128_MAX - 1 <= c.pending - AppliedAt(c, now) <= I128_MAX
    && -I128_MAX - 1 <= target - Read(c, now) <= I128_MAX
    && -I128_MAX - 1 <= c.pending - AppliedAt(c, now) + (target - Read(c, now)) <= I128_MAX
  }

  /** Each steer moves the settled offset by exactly the distance from the reading to the target. */
  lemma {:induction false} SteerMovesSettled(c: Clock, now: nat, target: int)
    requires Sane(c) && c.anchorMono <= now <= U64_MAX && Unsaturated(c, now, target)
    ensures Settled(Steer(c, now, target)) == Settled(c) + (target - Read(c, now))
  {
    hide AppliedAt, Read;
    PlainBounds(c, now);
  }

  /** So the clock settles on the target exactly when no earlier correction was left over. */
  lemma {:induction false} SettlesOnTarget(c: Clock, now: nat, target: int)
    requires Sane(c) && c.anchorMono <= now <= U64_MAX && Unsaturated(c, now, target)
    ensures Settled(Steer(c, now, target)) == target - now <==> AppliedAt(c, now) == c.pending
  {
    hide AppliedAt, Steer;
    SteerMovesSettled(c, now, target);
    PlainBounds(c, now);
  }

  /** Steering twice at one instant toward one target overshoots by the first distance. */
  lemma {:induction false} SecondSteerOvershoots(c: Clock, now: nat, target: int)
    requires Sane(c) && c.anchorMono <= now <= U64_MAX
    requires Unsaturated(c, now, target) && Unsaturated(Steer(c, now, target), now, target)
    ensures Settled(Steer(Steer(c, now, target), now, target)) == Settled(c) + 2 * (target - Read(c, now))
  {
    hide Steer, Read;
    SteerStaysSane(c, now, target);
    SteerAnchors(c, now, target);
    ReadAfterSteer(c, now, target);
    SteerMovesSettled(c, now, target);
    SteerMovesSettled(Steer(c, now, target), now, target);
  }

  // -------------------------------------------------------------------------
  // The clock object
  // -------------------------------------------------------------------------

  class SlewedNetworkClock {
    var anchorMonoNs: nat
    var anchorUnixNs: int
    var pendingAdjustNs: int
    const maxSlewPpm: nat
    var initialized: bool

    ghost function Value(): Clock
      reads this
    {
      Clock(anchorMonoNs, anchorUnixNs, pendingAdjustNs, maxSlewPpm)
    }

    ghost predicate Valid()
      reads this
    {
      maxSlewPpm < PPM
    }

    /** Rates of a million parts per million or more are clamped below it. */
    constructor (maxSlewPpm: nat)
      ensures Valid() && !initialized
      ensures this.maxSlewPpm == Clamped(maxSlewPpm)
      ensures this.maxSlewPpm == if maxSlewPpm < 1_000_000 then maxSlewPpm else 999_999
    {
      this.maxSlewPpm := if maxSlewPpm < PPM then maxSlewPpm else PPM - 1;
      anchorMonoNs, anchorUnixNs, pendingAdjustNs, initialized := 0, 0, 0, false;
    }

    function ReadUnixNs(nowMonoNs: nat): (r: Option<int>)
      reads this
      ensures initialized ==> r == Some(Read(Value(), nowMonoNs))
      ensures !initialized ==> r.None?
    {
      if !initialized then None
      else
        var elapsed := if nowMonoNs >= anchorMonoNs then nowMonoNs - anchorMonoNs else 0;
        var applied := Applied(pendingAdjustNs, MaxAdjust(elapsed, maxSlewPpm));
        Some(Saturated(Saturated(anchorUnixNs + elapsed) + applied))
    }

    /** Whole milliseconds, rounded down; nothing before 1970 or beyond the integer type. */
    function ReadUnixMs(nowMonoNs: nat): (r: Option<nat>)
      reads this
      ensures r.Some? <==> initialized && 0 <= Read(Value(), nowMonoNs) < (U64_MAX + 1) * 1_000_000
      ensures r.Some? ==> r.value * 1_000_000 <= Read(Value(), nowMonoNs) < (r.value + 1) * 1_000_000
    {
      match ReadUnixNs(nowMonoNs)
      case None => None
      case Some(ns) => if ns < 0 || ns / 1_000_000 > U64_MAX then None else Some(ns / 1_000_000)
    }

    /** The first steer sets the clock; every later one slews it. */
    method SteerUnixMs(nowMonoNs: nat, targetUnixMs: nat)
      requires Valid()
      modifies this
      ensures Valid() && initialized
      ensures Value() == if old(initialized) then Steer(old(Value()), nowMonoNs, targetUnixMs * 1_000_000)
                         else FirstSet(nowMonoNs, targetUnixMs, maxSlewPpm)
    {
      var target := targetUnixMs * 1_000_000;
      if !initialized {
        anchorMonoNs, anchorUnixNs, pendingAdjustNs, initialized := nowMonoNs, target, 0, true;
        return;
      }
      var reading := ReadUnixNs(nowMonoNs);
      var current := if reading.Some? then reading.value else target;
      var elapsed := if nowMonoNs >= anchorMonoNs then nowMonoNs - anchorMonoNs else 0;
      var applied := Applied(pendingAdjustNs, MaxAdjust(elapsed, maxSlewPpm));
      var remaining := Saturated(pendingAdjustNs - applied);
      anchorMonoNs := nowMonoNs;
      anchorUnixNs := current;
      pendingAdjustNs := Saturated(remaining + Saturated(target - current));
    }
  }
}
