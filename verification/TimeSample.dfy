/** Four-timestamp offset and delay (section 8 of RFC 5905), in milliseconds. */
module TimeSample {
  import opened CivilDate
  import opened NetworkTime

  const U64_MAX: int := 0xFFFF_FFFF_FFFF_FFFF

  datatype Sample = Sample(offset: int, delay: int)

  predicate U64(x: int) { 0 <= x <= U64_MAX }

  function AsU64(x: int): (r: int)
    ensures U64(x) ==> r == x
  {
    x % 0x1_0000_0000_0000_0000
  }

  /** The offset before it is narrowed to 64 bits. */
  function WideOffset(t1: int, t2: int, t3: int, t4: int): int
  {
    TruncDiv((t2 - t1) + (t3 - t4), 2)
  }

  function OffsetDelay(t1: int, t2: int, t3: int, t4: int): Sample
  {
    var delay := (t4 - t1) - (t3 - t2);
    Sample(AsI64(WideOffset(t1, t2, t3, t4)), if delay < 0 then 0 else AsU64(delay))
  }

  function Distance(a: int, b: int): int
  {
    if a >= b then a - b else b - a
  }

  /**
    A request sent at `t1` takes `forth`, is processed, and its answer takes `back`; the responder's
    clock is `theta` ahead. The delay is then exact, and the offset is wrong by half the asymmetry of
    the paths at most, give or take rounding.
   */
  lemma {:induction false} OffsetError(t1: int, t2: int, t3: int, t4: int, theta: int, forth: nat, back: nat)
    requires U64(t1) && U64(t2) && U64(t3) && U64(t4) && t2 <= t3
    requires t2 == t1 + theta + forth && t4 == t3 - theta + back
    requires I64(WideOffset(t1, t2, t3, t4)) && U64(forth + back)
    ensures var s := OffsetDelay(t1, t2, t3, t4);
            && s.delay == forth + back
            && Distance(2 * s.offset, 2 * theta) <= Distance(forth, back) + 1 <= s.delay + 1
  {
    hide AsI64, AsU64;
  }

  /** The narrowing is harmless exactly when the offset fits in 64 signed bits, and some do not. */
  lemma {:induction false} OffsetFits(t1: int, t2: int, t3: int, t4: int)
    requires U64(t1) && U64(t2) && U64(t3) && U64(t4)
    ensures OffsetDelay(t1, t2, t3, t4).offset == WideOffset(t1, t2, t3, t4) <==> I64(WideOffset(t1, t2, t3, t4))
    ensures WideOffset(0, U64_MAX, U64_MAX, 0) == U64_MAX && !I64(U64_MAX)
  {
    WrapsIntoRange(WideOffset(t1, t2, t3, t4));
  }

  lemma {:induction false} WrapsIntoRange(x: int)
    ensures I64(AsI64(x))
  {
  }

  /** A negative delay counts as none, and one of 2^64 milliseconds or more wraps. */
  lemma {:induction false} DelayExactly(t1: int, t2: int, t3: int, t4: int)
    requires U64(t1) && U64(t2) && U64(t3) && U64(t4)
    ensures var delay := (t4 - t1) - (t3 - t2);
            var s := OffsetDelay(t1, t2, t3, t4);
            && U64(s.delay)
            && (0 <= delay <= U64_MAX ==> s.delay == delay)
            && (delay < 0 ==> s.delay == 0)
            && (delay > U64_MAX ==> s.delay == delay - U64_MAX - 1)
  {
    hide AsI64;
  }

  function SubSat(a: int, b: int): int { if a >= b then a - b else 0 }

  function AddSat(a: int, b: int): int { if a + b > U64_MAX then U64_MAX else a + b }

  /** Estimated network time on receipt, and the one-way delay it assumes. */
  function NetworkSample(t1: int, t2: int, t3: int, t4: int): (int, int)
  {
    var oneWay := SubSat(SubSat(t4, t1), SubSat(t3, t2)) / 2;
    (AddSat(t3, oneWay), oneWay)
  }

  /**
    The assumed one-way delay in all cases: half of what the answer was under way longer than it was worked on, where
    clocks that seem to run backwards count as standing still; and the estimate is later by that, up to the limit.
   */
  lemma {:induction false} NetworkSampleExactly(t1: int, t2: int, t3: int, t4: int)
    requires U64(t1) && U64(t2) && U64(t3) && U64(t4)
    ensures var (time, oneWay) := NetworkSample(t1, t2, t3, t4);
            var total := if t4 > t1 then t4 - t1 else 0;
            var held := if t3 > t2 then t3 - t2 else 0;
            && (total <= held ==> oneWay == 0)
            && (total > held ==> 2 * oneWay <= total - held <= 2 * oneWay + 1)
            && (t3 + oneWay <= U64_MAX ==> time == t3 + oneWay)
            && (t3 + oneWay > U64_MAX ==> time == U64_MAX)
  {
  }

  /**
    Without saturation the estimate is the receive time plus the offset, one millisecond less when the
    offset was rounded up toward zero.
   */
  lemma {:induction false} SampleIsOffsetTime(t1: int, t2: int, t3: int, t4: int)
    requires U64(t1) && U64(t2) && U64(t3) && U64(t4)
    requires t1 <= t4 && t2 <= t3 && t3 - t2 <= t4 - t1 && t3 + (t4 - t1 - (t3 - t2)) / 2 <= U64_MAX
    ensures var sum := (t2 - t1) + (t3 - t4);
            NetworkSample(t1, t2, t3, t4).0
            == t4 + WideOffset(t1, t2, t3, t4) - if sum < 0 && sum % 2 == 1 then 1 else 0
  {
  }
}
