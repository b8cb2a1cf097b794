/** Every selection mode on the settings themselves: which side is taken, how often, and what the cursor does. */
module RouteShares {
  import opened Wrappers
  import opened LittleEndian
  import opened CanonicalLists
  import opened RouteSelection

  function Setting(m: map<(Option<nat>, nat), nat>, src: Option<nat>, side: nat, default: nat): nat
  {
    if (src, side) in m then m[(src, side)] else default
  }

  /** No mode is set for the source, and the sides come from discovery: the selection adapts to what was measured. */
  predicate Adaptive(st: Settings, src: Option<nat>, origin: Origin)
  {
    src !in st.modes && origin == Discovered
  }

  predicate InMode(st: Settings, src: Option<nat>, mode: Mode)
  {
    src in st.modes && st.modes[src] == mode
  }

  /** The cursor advances, by one and around at 2^64, exactly if one of several sides is picked by turn. */
  lemma {:induction false} CursorExactly(st: Settings, src: Option<nat>, sides: seq<nat>, origin: Origin, cursor: nat)
    ensures var turns := |sides| > 1
                         && (Adaptive(st, src, origin)
                             || (InMode(st, src, Weighted) && TotalWeight(sides, Configured(st, src)) > 0));
            Select(st, src, sides, origin, cursor).1 == if turns then (cursor + 1) % TWO_64 else cursor
  {
    hide TotalWeight, Chosen;
  }

  // -------------------------------------------------------------------------
  // Failover
  // -------------------------------------------------------------------------

  /** In failover the one side taken has the least priority number, zero by default, and is the lowest of those. */
  lemma {:induction false} FailoverExactly(st: Settings, src: Option<nat>, sides: seq<nat>, origin: Origin, cursor: nat)
    requires |sides| > 1 && Ascending(NatLess, sides) && InMode(st, src, Failover)
    ensures exists x :: x in sides && Select(st, src, sides, origin, cursor) == ([x], cursor)
                        && forall y :: y in sides ==>
                             var p, q := Setting(st.priorities, src, x, 0), Setting(st.priorities, src, y, 0);
                             p < q || (p == q && x <= y)
  {
    hide First, TotalWeight, Chosen, Ascending, Unmeasured;
    var x := First(st, src, sides);
    forall y | y in sides
      ensures var p, q := Setting(st.priorities, src, x, 0), Setting(st.priorities, src, y, 0);
              p < q || (p == q && x <= y)
    {
      FirstIsLeast(st, src, sides, y);
    }
  }

  // -------------------------------------------------------------------------
  // Weights
  // -------------------------------------------------------------------------

  /** Weighted selections share by the configured weights, one by default. */
  lemma {:induction false} WeightedShareExactly(
    st: Settings, src: Option<nat>, sides: seq<nat>, origin: Origin, cursor: nat, side: nat)
    requires |sides| > 1 && Ascending(NatLess, sides) && side in sides && InMode(st, src, Weighted)
    requires var total := TotalWeight(sides, Configured(st, src)); total > 0 && cursor + total <= TWO_64
    ensures PickedTimes(st, src, sides, origin, cursor, TotalWeight(sides, Configured(st, src)), side)
            == Setting(st.weights, src, side, 1)
  {
    hide TotalWeight, PickedTimes, Ascending, Unmeasured;
    SelectionsShareExactly(st, src, sides, origin, Configured(st, src), cursor, side);
  }

  lemma {:induction false} AllMeasured(st: Settings, sides: seq<nat>)
    requires forall s :: s in sides ==> s in st.bandwidth
    ensures Unmeasured(st, sides) == []
  {
    if |Unmeasured(st, sides)| > 0 {
      var x := Unmeasured(st, sides)[0];
      UnmeasuredElement(st, sides, x);
    }
  }

  /** Once every side is measured, adaptive selections share by bandwidth, counted as one if it is zero. */
  lemma {:induction false} MeasuredShareExactly(
    st: Settings, src: Option<nat>, sides: seq<nat>, origin: Origin, cursor: nat, side: nat)
    requires |sides| > 1 && Ascending(NatLess, sides) && side in sides && Adaptive(st, src, origin)
    requires forall s :: s in sides ==> s in st.bandwidth
    requires cursor + TotalWeight(sides, Measured(st)) <= TWO_64
    ensures PickedTimes(st, src, sides, origin, cursor, TotalWeight(sides, Measured(st)), side)
            == if st.bandwidth[side] > 0 then st.bandwidth[side] else 1
  {
    hide TotalWeight, PickedTimes, Ascending, Unmeasured;
    AllMeasured(st, sides);
    MeasuredTotal(st, sides);
    var total := TotalWeight(sides, Measured(st));
    assert cursor < TWO_64;
    SelectionsShareExactly(st, src, sides, origin, Measured(st), cursor, side);
  }

  // -------------------------------------------------------------------------
  // Sides that nobody has measured yet
  // -------------------------------------------------------------------------

  function Evenly(side: nat): nat { 1 }

  lemma {:induction false} EvenTotal(sides: seq<nat>)
    ensures TotalWeight(sides, Evenly) == |sides|
  {
    if |sides| > 0 {
      EvenTotal(sides[1..]);
    }
  }

  lemma {:induction false} EvenWalk(sides: seq<nat>, r: nat)
    requires r < |sides|
    ensures Walk(sides, Evenly, r) == Some(sides[r])
    decreases |sides|
  {
    if r > 0 {
      EvenWalk(sides[1..], r - 1);
    }
  }

  lemma {:induction false} UnmeasuredAscending(st: Settings, sides: seq<nat>)
    requires Ascending(NatLess, sides)
    ensures Ascending(NatLess, Unmeasured(st, sides))
  {
    if |sides| > 0 {
      UnmeasuredAscending(st, sides[1..]);
      var rest := Unmeasured(st, sides[1..]);
      forall j | 0 <= j < |rest| ensures NatLess(sides[0], rest[j]) {
        UnmeasuredElement(st, sides[1..], rest[j]);
        var k :| 0 <= k < |sides[1..]| && sides[1..][k] == rest[j];
        assert sides[k + 1] == rest[j];
      }
    }
  }

  /** While some side is unmeasured, a selection takes the one of those to which the cursor points. */
  lemma {:induction false} TurnIs(st: Settings, src: Option<nat>, sides: seq<nat>, origin: Origin, cursor: nat)
    requires |sides| > 1 && Adaptive(st, src, origin) && |Unmeasured(st, sides)| > 0 && cursor < TWO_64
    ensures Select(st, src, sides, origin, cursor)
            == (AsList(Chosen(Unmeasured(st, sides), Evenly, cursor)), Bumped(cursor))
  {
    hide Unmeasured, TotalWeight, Walk;
    var unknown := Unmeasured(st, sides);
    EvenTotal(unknown);
    EvenWalk(unknown, cursor % |unknown|);
    PickIs(unknown, Evenly, cursor);
  }

  lemma {:induction false} TurnsAreTimes(st: Settings, src: Option<nat>, sides: seq<nat>, origin: Origin, cursor: nat,
      n: nat, side: nat)
    requires |sides| > 1 && Adaptive(st, src, origin) && |Unmeasured(st, sides)| > 0 && cursor < TWO_64
    ensures PickedTimes(st, src, sides, origin, cursor, n, side)
            == Times(Unmeasured(st, sides), Evenly, cursor, n, side)
    decreases n
  {
    hide Unmeasured, Select, TotalWeight, Chosen;
    if n > 0 {
      var unknown := Unmeasured(st, sides);
      TurnIs(st, src, sides, origin, cursor);
      EvenTotal(unknown);
      AlwaysOne(unknown, Evenly, cursor);
      TurnsAreTimes(st, src, sides, origin, Bumped(cursor), n - 1, side);
      TimesAfterBump(unknown, Evenly, cursor, n - 1, side);
    }
  }

  /**
    As long as some sides are unmeasured, adaptive selections take turns among those: in as many successive
    selections as there are of them, each is taken exactly once, and no measured side ever is.
   */
  lemma {:induction false} UnmeasuredTakeTurns(
    st: Settings, src: Option<nat>, sides: seq<nat>, origin: Origin, cursor: nat, side: nat)
    requires |sides| > 1 && Ascending(NatLess, sides) && side in sides && Adaptive(st, src, origin)
    requires exists s :: s in sides && s !in st.bandwidth
    requires cursor + |Unmeasured(st, sides)| <= TWO_64
    ensures PickedTimes(st, src, sides, origin, cursor, |Unmeasured(st, sides)|, side)
            == if side in st.bandwidth then 0 else 1
  {
    hide Unmeasured, PickedTimes, TotalWeight, Times, Ascending;
    var unknown := Unmeasured(st, sides);
    var s :| s in sides && s !in st.bandwidth;
    UnmeasuredElement(st, sides, s);
    UnmeasuredElement(st, sides, side);
    UnmeasuredAscending(st, sides);
    EvenTotal(unknown);
    assert |unknown| > 0;
    TurnsAreTimes(st, src, sides, origin, cursor, |unknown|, side);
    if side in unknown {
      ExactShare(unknown, Evenly, cursor, side);
    } else {
      NeverTaken(unknown, cursor, |unknown|, side);
    }
  }

  lemma {:induction false} NeverTaken(unknown: seq<nat>, cursor: nat, n: nat, side: nat)
    requires side !in unknown
    ensures Times(unknown, Evenly, cursor, n, side) == 0
    decreases n
  {
    hide Chosen;
    if n > 0 {
      AlwaysOne(unknown, Evenly, cursor);
      NeverTaken(unknown, cursor + 1, n - 1, side);
    }
  }
}
