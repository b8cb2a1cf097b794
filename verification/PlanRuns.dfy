/** Many items of one kind from one side: how successive plans share them among the sides that could take them. */
module PlanRuns {
  import opened Wrappers
  import opened LittleEndian
  import opened CanonicalLists
  import opened DiscoveryRoutes
  import opened RouteSelection
  import opened RouteShares
  import opened RoutePlan

  /** In how many of `n` successive plans, each made on the tables the one before left, `x` is the only target. */
  function PlannedTimes(t: Tables, names: Naming, item: Item, exclude: nat, now: nat, ttl: nat, n: nat, x: nat): nat
    decreases n
  {
    if n == 0 then 0
    else
      (if Plan(t, names, item, exclude, now, ttl) == [x] then 1 else 0)
      + PlannedTimes(AfterPlan(t, names, item, exclude, now, ttl), names, item, exclude, now, ttl, n - 1, x)
  }

  // -------------------------------------------------------------------------
  // Planning moves nothing but a cursor
  // -------------------------------------------------------------------------

  /** The tables differ in their cursors at most. */
  ghost predicate SameRules(t: Tables, u: Tables)
  {
    u == t.(cursors := u.cursors)
  }

  lemma {:induction false} SameAllowed(t: Tables, u: Tables, src: Option<nat>, ty: Option<nat>, dst: nat)
    requires SameRules(t, u)
    ensures RouteAllowed(u, src, ty, dst) == RouteAllowed(t, src, ty, dst) && SideAt(u, dst) == SideAt(t, dst)
  {
  }

  lemma {:induction false} SameEligible(t: Tables, u: Tables, src: Option<nat>, ty: Option<nat>, restrict: bool,
      id: nat)
    requires SameRules(t, u) && id <= |t.sides|
    ensures EligibleFrom(u, src, ty, restrict, id) == EligibleFrom(t, src, ty, restrict, id)
    decreases |t.sides| - id
  {
    hide RouteAllowed;
    if id < |t.sides| {
      SameAllowed(t, u, src, ty, id);
      SameEligible(t, u, src, ty, restrict, id + 1);
    }
  }

  lemma {:induction false} SameTargets(t: Tables, u: Tables, item: Item, exclude: nat, routes: seq<Route>, now: nat,
      ttl: nat)
    requires SameRules(t, u)
    ensures ExactTargets(u, item, exclude, routes, now, ttl) == ExactTargets(t, item, exclude, routes, now, ttl)
    ensures KnownTargets(u, item, exclude, routes, now, ttl) == KnownTargets(t, item, exclude, routes, now, ttl)
    decreases |routes|
  {
    hide RouteAllowed, NamesSource, ReachesAny, SideAt;
    if |routes| > 0 {
      SameAllowed(t, u, Some(exclude), Some(item.ty), routes[0].side);
      SameTargets(t, u, item, exclude, routes[1..], now, ttl);
    }
  }

  lemma {:induction false} SameWaiting(t: Tables, u: Tables, names: Naming, item: Item, sides: seq<nat>)
    requires SameRules(t, u)
    ensures Waiting(u, names, item, sides) == Waiting(t, names, item, sides)
    decreases |sides|
  {
    if |sides| > 0 {
      SameWaiting(t, u, names, item, sides[1..]);
    }
  }

  /** So the candidates of an item stay the same. */
  lemma {:induction false} SameCandidates(t: Tables, u: Tables, names: Naming, item: Item, exclude: nat, now: nat,
      ttl: nat)
    requires SameRules(t, u)
    ensures Candidates(u, names, item, exclude, now, ttl) == Candidates(t, names, item, exclude, now, ttl)
  {
    hide EligibleFrom, ExactTargets, KnownTargets, Waiting;
    SameEligible(t, u, Some(exclude), Some(item.ty), false, 0);
    SameEligible(t, u, Some(exclude), Some(item.ty), item.linkLocalOnly, 0);
    SameTargets(t, u, item, exclude, t.routes, now, ttl);
    SameWaiting(t, u, names, item, ExactTargets(t, item, exclude, t.routes, now, ttl));
    SameWaiting(t, u, names, item, KnownTargets(t, item, exclude, t.routes, now, ttl));
  }

  lemma {:induction false} AfterPlanIs(t: Tables, names: Naming, item: Item, exclude: nat, now: nat, ttl: nat)
    requires item.discovery || item.control.None?
    ensures var (sides, origin) := Candidates(t, names, item, exclude, now, ttl);
            var (picked, next) := Select(t.settings, Some(exclude), sides, origin, CursorOf(t, exclude));
            var u := AfterPlan(t, names, item, exclude, now, ttl);
            && Plan(t, names, item, exclude, now, ttl) == picked
            && SameRules(t, u) && CursorOf(u, exclude) == next
            && (forall s :: s != Some(exclude) && s in t.cursors ==> s in u.cursors && u.cursors[s] == t.cursors[s])
  {
    hide Candidates, Select;
  }

  /** Successive plans are successive selections among the same sides. */
  lemma {:induction false} PlansAreSelections(t: Tables, names: Naming, item: Item, exclude: nat, now: nat, ttl: nat,
      n: nat, x: nat)
    requires item.discovery || item.control.None?
    ensures var (sides, origin) := Candidates(t, names, item, exclude, now, ttl);
            PlannedTimes(t, names, item, exclude, now, ttl, n, x)
            == PickedTimes(t.settings, Some(exclude), sides, origin, CursorOf(t, exclude), n, x)
    decreases n
  {
    hide Candidates, Select, Plan, AfterPlan, CursorOf;
    if n > 0 {
      var u := AfterPlan(t, names, item, exclude, now, ttl);
      AfterPlanIs(t, names, item, exclude, now, ttl);
      SameCandidates(t, u, names, item, exclude, now, ttl);
      PlansAreSelections(u, names, item, exclude, now, ttl, n - 1, x);
    }
  }

  // -------------------------------------------------------------------------
  // The candidates come in order
  // -------------------------------------------------------------------------

  /** The sides of later routes are higher. */
  lemma {:induction false} LaterSide(routes: seq<Route>, x: nat)
    requires BySide(routes) && |routes| > 0
    requires exists i :: 0 <= i < |routes[1..]| && routes[1..][i].side == x
    ensures routes[0].side < x
  {
    var i :| 0 <= i < |routes[1..]| && routes[1..][i].side == x;
    assert routes[i + 1].side == x;
  }

  lemma {:induction false} ExactAscending(t: Tables, item: Item, exclude: nat, routes: seq<Route>, now: nat, ttl: nat)
    requires BySide(routes)
    ensures Ascending(NatLess, ExactTargets(t, item, exclude, routes, now, ttl))
    decreases |routes|
  {
    hide Usable, NamesSource;
    if |routes| > 0 {
      ExactAscending(t, item, exclude, routes[1..], now, ttl);
      var rest := ExactTargets(t, item, exclude, routes[1..], now, ttl);
      forall x | x in rest ensures NatLess(routes[0].side, x) {
        ExactMeaning(t, item, exclude, routes[1..], now, ttl, x);
        LaterSide(routes, x);
      }
      PrependAscending(NatLess, routes[0].side, rest);
      assert [] + rest == rest;
    }
  }

  lemma {:induction false} KnownAscending(t: Tables, item: Item, exclude: nat, routes: seq<Route>, now: nat, ttl: nat)
    requires BySide(routes)
    ensures Ascending(NatLess, KnownTargets(t, item, exclude, routes, now, ttl))
    decreases |routes|
  {
    hide Usable, NamesSource, ReachesAny;
    if |routes| > 0 {
      KnownAscending(t, item, exclude, routes[1..], now, ttl);
      var rest := KnownTargets(t, item, exclude, routes[1..], now, ttl);
      forall x | x in rest ensures NatLess(routes[0].side, x) {
        KnownMeaning(t, item, exclude, routes[1..], now, ttl, x);
        LaterSide(routes, x);
      }
      PrependAscending(NatLess, routes[0].side, rest);
      assert [] + rest == rest;
    }
  }

  lemma {:induction false} WaitingAscending(t: Tables, names: Naming, item: Item, sides: seq<nat>)
    requires Ascending(NatLess, sides)
    ensures Ascending(NatLess, Waiting(t, names, item, sides))
    decreases |sides|
  {
    hide SideWaits;
    if |sides| > 0 {
      WaitingAscending(t, names, item, sides[1..]);
      var rest := Waiting(t, names, item, sides[1..]);
      forall x | x in rest ensures NatLess(sides[0], x) {
        WaitingMeaning(t, names, item, sides[1..], x);
        var k :| 0 <= k < |sides[1..]| && sides[1..][k] == x;
        assert NatLess(sides[0], sides[k + 1]);
      }
      PrependAscending(NatLess, sides[0], rest);
      assert [] + rest == rest;
    }
  }

  lemma {:induction false} CandidatesAscending(t: Tables, names: Naming, item: Item, exclude: nat, now: nat, ttl: nat)
    requires BySide(t.routes)
    ensures Ascending(NatLess, Candidates(t, names, item, exclude, now, ttl).0)
  {
    hide ExactTargets, KnownTargets, Waiting, EligibleFrom, Ascending;
    var exact := ExactTargets(t, item, exclude, t.routes, now, ttl);
    var known := KnownTargets(t, item, exclude, t.routes, now, ttl);
    ExactAscending(t, item, exclude, t.routes, now, ttl);
    KnownAscending(t, item, exclude, t.routes, now, ttl);
    WaitingAscending(t, names, item, exact);
    WaitingAscending(t, names, item, known);
    EligibleMeaning(t, Some(exclude), Some(item.ty), false, 0);
    EligibleMeaning(t, Some(exclude), Some(item.ty), item.linkLocalOnly, 0);
  }

  // -------------------------------------------------------------------------
  // Shares
  // -------------------------------------------------------------------------

  /**
    With weights configured for a source, items of one kind from there share exactly: of as many successive plans
    as the weights of the candidates add up to, each candidate is the target of exactly its weight, one by default.
   */
  lemma {:induction false} PlansShareByWeight(t: Tables, names: Naming, item: Item, exclude: nat, now: nat, ttl: nat,
      x: nat)
    requires (item.discovery || item.control.None?) && BySide(t.routes) && InMode(t.settings, Some(exclude), Weighted)
    requires var sides := Candidates(t, names, item, exclude, now, ttl).0;
             var total := TotalWeight(sides, Configured(t.settings, Some(exclude)));
             |sides| > 1 && x in sides && total > 0 && CursorOf(t, exclude) + total <= TWO_64
    ensures var sides := Candidates(t, names, item, exclude, now, ttl).0;
            PlannedTimes(t, names, item, exclude, now, ttl,
                         TotalWeight(sides, Configured(t.settings, Some(exclude))), x)
            == Setting(t.settings.weights, Some(exclude), x, 1)
  {
    hide Candidates, PlannedTimes, PickedTimes, CursorOf, Ascending, TotalWeight;
    var (sides, origin) := Candidates(t, names, item, exclude, now, ttl);
    var total := TotalWeight(sides, Configured(t.settings, Some(exclude)));
    CandidatesAscending(t, names, item, exclude, now, ttl);
    PlansAreSelections(t, names, item, exclude, now, ttl, total, x);
    WeightedShareExactly(t.settings, Some(exclude), sides, origin, CursorOf(t, exclude), x);
  }

  /**
    Without a mode, ordinary items with discovered ways adapt. While candidates are unmeasured, successive plans take
    turns among those, once each; once all are measured, they share by bandwidth.
   */
  lemma {:induction false} PlansAdapt(t: Tables, names: Naming, item: Item, exclude: nat, now: nat, ttl: nat, x: nat)
    requires (item.discovery || item.control.None?) && BySide(t.routes)
    requires var (sides, origin) := Candidates(t, names, item, exclude, now, ttl);
             |sides| > 1 && x in sides && Adaptive(t.settings, Some(exclude), origin)
    ensures var sides := Candidates(t, names, item, exclude, now, ttl).0;
            var unknown := |Unmeasured(t.settings, sides)|;
            var total := TotalWeight(sides, Measured(t.settings));
            && ((exists s :: s in sides && s !in t.settings.bandwidth) && CursorOf(t, exclude) + unknown <= TWO_64 ==>
                  PlannedTimes(t, names, item, exclude, now, ttl, unknown, x)
                  == if x in t.settings.bandwidth then 0 else 1)
            && ((forall s :: s in sides ==> s in t.settings.bandwidth) && CursorOf(t, exclude) + total <= TWO_64 ==>
                  PlannedTimes(t, names, item, exclude, now, ttl, total, x)
                  == if t.settings.bandwidth[x] > 0 then t.settings.bandwidth[x] else 1)
  {
    hide Candidates, PlannedTimes, PickedTimes, CursorOf, Ascending, TotalWeight, Unmeasured;
    var (sides, origin) := Candidates(t, names, item, exclude, now, ttl);
    var unknown := |Unmeasured(t.settings, sides)|;
    var total := TotalWeight(sides, Measured(t.settings));
    CandidatesAscending(t, names, item, exclude, now, ttl);
    PlansAreSelections(t, names, item, exclude, now, ttl, unknown, x);
    PlansAreSelections(t, names, item, exclude, now, ttl, total, x);
    if (exists s :: s in sides && s !in t.settings.bandwidth) && CursorOf(t, exclude) + unknown <= TWO_64 {
      UnmeasuredTakeTurns(t.settings, Some(exclude), sides, origin, CursorOf(t, exclude), x);
    }
    if (forall s :: s in sides ==> s in t.settings.bandwidth) && CursorOf(t, exclude) + total <= TWO_64 {
      MeasuredShareExactly(t.settings, Some(exclude), sides, origin, CursorOf(t, exclude), x);
    }
  }

  /** With failover configured, every plan has one target: the candidate of the least priority number. */
  lemma {:induction false} PlanFailsOver(t: Tables, names: Naming, item: Item, exclude: nat, now: nat, ttl: nat)
    requires (item.discovery || item.control.None?) && BySide(t.routes) && InMode(t.settings, Some(exclude), Failover)
    requires |Candidates(t, names, item, exclude, now, ttl).0| > 1
    ensures var sides := Candidates(t, names, item, exclude, now, ttl).0;
            exists x :: x in sides && Plan(t, names, item, exclude, now, ttl) == [x]
                        && forall y :: y in sides ==>
                             var p := Setting(t.settings.priorities, Some(exclude), x, 0);
                             var q := Setting(t.settings.priorities, Some(exclude), y, 0);
                             p < q || (p == q && x <= y)
  {
    hide Candidates, CursorOf, Ascending;
    var (sides, origin) := Candidates(t, names, item, exclude, now, ttl);
    CandidatesAscending(t, names, item, exclude, now, ttl);
    FailoverExactly(t.settings, Some(exclude), sides, origin, CursorOf(t, exclude));
  }
}
