/** Which sides a received item is forwarded to. */
module RoutePlan {
  import opened Wrappers
  import opened LittleEndian
  import opened CanonicalLists
  import opened Topology
  import opened DiscoveryRoutes
  import opened RouteSelection

  datatype Side = Side(ingress: bool, egress: bool, linkLocal: bool)

  /** The relay's routing state. Removed sides leave a gap; routes are listed by side. */
  datatype Tables = Tables(
    sides: seq<Option<Side>>, overrides: map<(Option<nat>, nat), bool>, typed: map<(Option<nat>, nat, nat), bool>,
    settings: Settings, cursors: map<Option<nat>, nat>, routes: seq<Route>, returnRoutes: map<nat, nat>,
    acked: map<nat, set<nat>>)

  /** An item as routing sees it. `control` is the packet that an end-to-end acknowledgement is about. */
  datatype Item = Item(
    ty: nat, endpoints: seq<nat>, discovery: bool, reliable: bool, linkLocalOnly: bool, control: Option<nat>,
    source: Option<Text>, id: nat)

  /** Which board names count as end-to-end destinations, and their hashes. */
  datatype Naming = Naming(isDestination: Text -> bool, hash: Text -> nat)

  // -------------------------------------------------------------------------
  // What is allowed
  // -------------------------------------------------------------------------

  function SideAt(t: Tables, id: nat): Option<Side>
  {
    if id < |t.sides| then t.sides[id] else None
  }

  /** A type with any rule of its own for a source goes only where a rule says so. */
  predicate TypeAllowed(t: Tables, src: Option<nat>, ty: nat, dst: nat)
  {
    if exists k :: k in t.typed && k.0 == src && k.1 == ty then (src, ty, dst) in t.typed && t.typed[(src, ty, dst)]
    else true
  }

  predicate RouteAllowed(t: Tables, src: Option<nat>, ty: Option<nat>, dst: nat)
  {
    && SideAt(t, dst).Some? && SideAt(t, dst).value.egress
    && (src.Some? ==> SideAt(t, src.value).Some? && SideAt(t, src.value).value.ingress && src.value != dst)
    && ((src, dst) in t.overrides ==> t.overrides[(src, dst)])
    && (ty.Some? ==> TypeAllowed(t, src, ty.value, dst))
  }

  function EligibleFrom(t: Tables, src: Option<nat>, ty: Option<nat>, restrict: bool, id: nat): seq<nat>
    requires id <= |t.sides|
    decreases |t.sides| - id
  {
    if id == |t.sides| then []
    else
      var rest := EligibleFrom(t, src, ty, restrict, id + 1);
      if t.sides[id].Some? && (restrict ==> t.sides[id].value.linkLocal) && RouteAllowed(t, src, ty, id)
      then [id] + rest else rest
  }

  function Eligible(t: Tables, src: Option<nat>, ty: Option<nat>, restrict: bool): seq<nat>
  {
    EligibleFrom(t, src, ty, restrict, 0)
  }

  function CursorOf(t: Tables, exclude: nat): nat
  {
    if Some(exclude) in t.cursors then t.cursors[Some(exclude)] else 0
  }

  function SelectFor(t: Tables, exclude: nat, sides: seq<nat>, origin: Origin): seq<nat>
  {
    Select(t.settings, Some(exclude), sides, origin, CursorOf(t, exclude)).0
  }

  // -------------------------------------------------------------------------
  // Where discovery points
  // -------------------------------------------------------------------------

  /** A route that may be used for this item at all. */
  predicate Usable(t: Tables, item: Item, exclude: nat, r: Route, now: nat, ttl: nat)
  {
    && r.side != exclude && !(now > r.lastSeen && now - r.lastSeen > ttl)
    && (item.linkLocalOnly ==> SideAt(t, r.side).Some? && SideAt(t, r.side).value.linkLocal)
    && RouteAllowed(t, Some(exclude), Some(item.ty), r.side)
  }

  predicate NamesSource(item: Item, r: Route)
  {
    item.source.Some? && item.source.value in r.sources
  }

  predicate ReachesAny(endpoints: seq<nat>, reachable: seq<nat>)
  {
    exists e :: e in endpoints && e in reachable
  }

  function ExactTargets(t: Tables, item: Item, exclude: nat, routes: seq<Route>, now: nat, ttl: nat): seq<nat>
  {
    if |routes| == 0 then []
    else
      (if Usable(t, item, exclude, routes[0], now, ttl) && NamesSource(item, routes[0]) then [routes[0].side] else [])
      + ExactTargets(t, item, exclude, routes[1..], now, ttl)
  }

  function KnownTargets(t: Tables, item: Item, exclude: nat, routes: seq<Route>, now: nat, ttl: nat): seq<nat>
  {
    if |routes| == 0 then []
    else
      (if Usable(t, item, exclude, routes[0], now, ttl) && !NamesSource(item, routes[0])
          && ReachesAny(item.endpoints, routes[0].endpoints) then [routes[0].side] else [])
      + KnownTargets(t, item, exclude, routes[1..], now, ttl)
  }

  // -------------------------------------------------------------------------
  // End-to-end acknowledgements
  // -------------------------------------------------------------------------

  /** Every board that a route's announcers speak of. */
  function BoardsOf(announcers: seq<Announcer>): seq<Board>
  {
    if |announcers| == 0 then [] else announcers[0].boards + BoardsOf(announcers[1..])
  }

  predicate Destination(names: Naming, b: Board)
  {
    names.isDestination(b.sender)
  }

  predicate AwaitsAck(names: Naming, item: Item, acked: set<nat>, b: Board)
  {
    Destination(names, b) && ReachesAny(item.endpoints, b.endpoints) && names.hash(b.sender) !in acked
  }

  /** Scans the boards of one side: does one still wait, and was there a destination at all? */
  function StillPending(names: Naming, item: Item, acked: set<nat>, boards: seq<Board>, seen: bool): bool
  {
    if |boards| == 0 then !seen
    else if AwaitsAck(names, item, acked, boards[0]) then true
    else StillPending(names, item, acked, boards[1..], seen || Destination(names, boards[0]))
  }

  predicate SideWaits(t: Tables, names: Naming, item: Item, side: nat)
  {
    item.id in t.acked ==>
      match Lookup(t.routes, side)
      case None => true
      case Some(r) => StillPending(names, item, t.acked[item.id], BoardsOf(r.announcers), false)
  }

  function Waiting(t: Tables, names: Naming, item: Item, sides: seq<nat>): seq<nat>
  {
    if |sides| == 0 then []
    else (if SideWaits(t, names, item, sides[0]) then [sides[0]] else []) + Waiting(t, names, item, sides[1..])
  }

  /** Sides whose destinations have all acknowledged a reliable packet are left out. */
  function Unsatisfied(t: Tables, names: Naming, item: Item, sides: seq<nat>): seq<nat>
  {
    if !item.reliable || item.control.Some? then sides else Waiting(t, names, item, sides)
  }

  // -------------------------------------------------------------------------
  // The plan
  // -------------------------------------------------------------------------

  /**
    The sides among which the item's targets are selected, and where they come from: discovery traffic goes to
    every allowed side; all else to the sides of live routes to the wanted time source, or else to an endpoint, or
    else to every allowed side.
   */
  function Candidates(t: Tables, names: Naming, item: Item, exclude: nat, now: nat, ttl: nat): (seq<nat>, Origin)
  {
    var origin := if item.reliable then Flood else Discovered;
    var exact := ExactTargets(t, item, exclude, t.routes, now, ttl);
    var known := KnownTargets(t, item, exclude, t.routes, now, ttl);
    if item.discovery then (Eligible(t, Some(exclude), Some(item.ty), false), Flood)
    else if |exact| > 0 then (Unsatisfied(t, names, item, exact), origin)
    else if |known| > 0 then (Unsatisfied(t, names, item, known), origin)
    else (Eligible(t, Some(exclude), Some(item.ty), item.linkLocalOnly), Flood)
  }

  function Plan(t: Tables, names: Naming, item: Item, exclude: nat, now: nat, ttl: nat): seq<nat>
  {
    if !item.discovery && item.control.Some? then
      (if item.control.value in t.returnRoutes
          && RouteAllowed(t, Some(exclude), Some(item.ty), t.returnRoutes[item.control.value])
       then [t.returnRoutes[item.control.value]] else [])
    else
      var (sides, origin) := Candidates(t, names, item, exclude, now, ttl);
      SelectFor(t, exclude, sides, origin)
  }

  /** The tables after planning: only the cursor of the item's source may have moved. */
  function AfterPlan(t: Tables, names: Naming, item: Item, exclude: nat, now: nat, ttl: nat): Tables
  {
    if !item.discovery && item.control.Some? then t
    else
      var (sides, origin) := Candidates(t, names, item, exclude, now, ttl);
      var next := Select(t.settings, Some(exclude), sides, origin, CursorOf(t, exclude)).1;
      if next == CursorOf(t, exclude) then t else t.(cursors := t.cursors[Some(exclude) := next])
  }

  // -------------------------------------------------------------------------
  // What the tables permit
  // -------------------------------------------------------------------------

  /** Side `src` exists and takes items in, side `dst` exists and sends items out, and they are not the same. */
  ghost predicate Connected(t: Tables, src: nat, dst: nat)
  {
    && src < |t.sides| && t.sides[src].Some? && t.sides[src].value.ingress
    && dst < |t.sides| && t.sides[dst].Some? && t.sides[dst].value.egress
    && src != dst
  }

  /**
    No rule is against it: the override of the pair, if there is one, is on; and if the type has a rule from
    this source to any side at all, it has one to this side, and that is on.
   */
  ghost predicate RulesPermit(t: Tables, src: Option<nat>, ty: nat, dst: nat)
  {
    && ((src, dst) in t.overrides ==> t.overrides[(src, dst)])
    && ((exists y :: (src, ty, y) in t.typed) ==> (src, ty, dst) in t.typed && t.typed[(src, ty, dst)])
  }

  /** A received item is allowed to go where the sides are connected and no rule is against it, and nowhere else. */
  lemma {:induction false} AllowedExactly(t: Tables, src: nat, ty: nat, dst: nat)
    ensures RouteAllowed(t, Some(src), Some(ty), dst) <==> Connected(t, src, dst) && RulesPermit(t, Some(src), ty, dst)
    ensures RouteAllowed(t, Some(src), None, dst) <==>
              Connected(t, src, dst) && ((Some(src), dst) in t.overrides ==> t.overrides[(Some(src), dst)])
  {
    TypedRules(t, Some(src), ty);
  }

  /** What the relay itself creates has no source side: only the target has to be there and to send items out. */
  lemma {:induction false} AllowedFromInside(t: Tables, ty: nat, dst: nat)
    ensures RouteAllowed(t, None, Some(ty), dst) <==>
              && dst < |t.sides| && t.sides[dst].Some? && t.sides[dst].value.egress
              && RulesPermit(t, None, ty, dst)
  {
    TypedRules(t, None, ty);
  }

  lemma {:induction false} TypedRules(t: Tables, src: Option<nat>, ty: nat)
    ensures (exists k :: k in t.typed && k.0 == src && k.1 == ty) <==> (exists y :: (src, ty, y) in t.typed)
  {
    if k :| k in t.typed && k.0 == src && k.1 == ty {
      assert k == (src, ty, k.2);
    }
    if y :| (src, ty, y) in t.typed {
      var k := (src, ty, y);
      assert k in t.typed && k.0 == src && k.1 == ty;
    }
  }

  // -------------------------------------------------------------------------
  // Safety
  // -------------------------------------------------------------------------

  lemma {:induction false} EligibleMeaning(t: Tables, src: Option<nat>, ty: Option<nat>, restrict: bool, id: nat)
    requires id <= |t.sides|
    ensures var r := EligibleFrom(t, src, ty, restrict, id);
            && Ascending(NatLess, r)
            && forall x :: x in r <==> id <= x < |t.sides| && RouteAllowed(t, src, ty, x)
                                       && (restrict ==> SideAt(t, x).value.linkLocal)
    decreases |t.sides| - id
  {
    hide TypeAllowed;
    if id < |t.sides| {
      EligibleMeaning(t, src, ty, restrict, id + 1);
      var rest := EligibleFrom(t, src, ty, restrict, id + 1);
      forall j | 0 <= j < |rest| ensures NatLess(id, rest[j]) {
        assert rest[j] in rest;
      }
    }
  }

  /** A target of discovery is the side of a usable route; every one of them is. */
  lemma {:induction false} ExactMeaning(t: Tables, item: Item, exclude: nat, routes: seq<Route>, now: nat, ttl: nat,
      x: nat)
    ensures x in ExactTargets(t, item, exclude, routes, now, ttl) <==>
              exists i :: 0 <= i < |routes| && routes[i].side == x && Usable(t, item, exclude, routes[i], now, ttl)
                          && NamesSource(item, routes[i])
  {
    hide Usable, NamesSource;
    if |routes| > 0 {
      ExactMeaning(t, item, exclude, routes[1..], now, ttl, x);
      assert forall i :: 0 <= i < |routes| ==> routes[i] == if i == 0 then routes[0] else routes[1..][i - 1];
    }
  }

  lemma {:induction false} KnownMeaning(t: Tables, item: Item, exclude: nat, routes: seq<Route>, now: nat, ttl: nat,
      x: nat)
    ensures x in KnownTargets(t, item, exclude, routes, now, ttl) <==>
              exists i :: 0 <= i < |routes| && routes[i].side == x && Usable(t, item, exclude, routes[i], now, ttl)
                          && !NamesSource(item, routes[i]) && ReachesAny(item.endpoints, routes[i].endpoints)
  {
    hide Usable, NamesSource, ReachesAny;
    if |routes| > 0 {
      KnownMeaning(t, item, exclude, routes[1..], now, ttl, x);
      assert forall i :: 0 <= i < |routes| ==> routes[i] == if i == 0 then routes[0] else routes[1..][i - 1];
    }
  }

  /** A side is left out exactly when it has a destination and every destination it reaches for has acknowledged. */
  lemma {:induction false} PendingMeaning(names: Naming, item: Item, acked: set<nat>, boards: seq<Board>, seen: bool)
    ensures StillPending(names, item, acked, boards, seen) <==>
              || (!seen && forall b :: b in boards ==> !Destination(names, b))
              || (exists b :: b in boards && AwaitsAck(names, item, acked, b))
    decreases |boards|
  {
    hide Destination, ReachesAny;
    if |boards| > 0 {
      PendingMeaning(names, item, acked, boards[1..], seen || Destination(names, boards[0]));
      assert boards == [boards[0]] + boards[1..];
    }
  }

  lemma {:induction false} WaitingMeaning(t: Tables, names: Naming, item: Item, sides: seq<nat>, x: nat)
    ensures x in Waiting(t, names, item, sides) <==> x in sides && SideWaits(t, names, item, x)
  {
    hide SideWaits;
    if |sides| > 0 {
      WaitingMeaning(t, names, item, sides[1..], x);
      assert sides == [sides[0]] + sides[1..];
    }
  }

  lemma {:induction false} UnsatisfiedMeaning(t: Tables, names: Naming, item: Item, sides: seq<nat>, x: nat)
    ensures x in Unsatisfied(t, names, item, sides) ==> x in sides
    ensures x in sides && (!item.reliable || SideWaits(t, names, item, x)) ==> x in Unsatisfied(t, names, item, sides)
  {
    hide SideWaits;
    WaitingMeaning(t, names, item, sides, x);
  }

  lemma {:induction false} SelectedElement(t: Tables, exclude: nat, sides: seq<nat>, origin: Origin, x: nat)
    ensures x in SelectFor(t, exclude, sides, origin) ==> x in sides
  {
    SelectionMeaning(t.settings, Some(exclude), sides, origin, CursorOf(t, exclude));
    hide Select;
  }

  lemma {:induction false} EligibleAllowed(t: Tables, src: nat, ty: nat, restrict: bool, x: nat)
    requires x in Eligible(t, Some(src), Some(ty), restrict)
    ensures RouteAllowed(t, Some(src), Some(ty), x) && SideAt(t, x).Some?
    ensures restrict ==> SideAt(t, x).value.linkLocal
  {
    hide TypeAllowed;
    EligibleMeaning(t, Some(src), Some(ty), restrict, 0);
  }

  lemma {:induction false} UsableAllowed(t: Tables, item: Item, exclude: nat, r: Route, now: nat, ttl: nat)
    requires Usable(t, item, exclude, r, now, ttl)
    ensures RouteAllowed(t, Some(exclude), Some(item.ty), r.side) && SideAt(t, r.side).Some?
    ensures item.linkLocalOnly ==> SideAt(t, r.side).value.linkLocal
  {
  }

  /**
    Whatever the tables say, an item only ever goes to existing sides with egress enabled, from an existing side
    with ingress enabled, never back where it came from, and never against a route override; where its type has
    rules of its own, only along one that is on; and, when all its endpoints are link-local, only to link-local
    sides (discovery traffic and end-to-end acknowledgements aside).
   */
  lemma {:induction false} PlanIsSafe(t: Tables, names: Naming, item: Item, exclude: nat, now: nat, ttl: nat, x: nat)
    requires x in Plan(t, names, item, exclude, now, ttl)
    ensures x < |t.sides| && t.sides[x].Some? && t.sides[x].value.egress && x != exclude
    ensures exclude < |t.sides| && t.sides[exclude].Some? && t.sides[exclude].value.ingress
    ensures (Some(exclude), x) in t.overrides ==> t.overrides[(Some(exclude), x)]
    ensures (exists y :: (Some(exclude), item.ty, y) in t.typed) ==>
              (Some(exclude), item.ty, x) in t.typed && t.typed[(Some(exclude), item.ty, x)]
    ensures item.linkLocalOnly && !item.discovery && item.control.None? ==> t.sides[x].value.linkLocal
  {
    hide Plan;
    PlanIsAllowed(t, names, item, exclude, now, ttl, x);
    AllowedExactly(t, exclude, item.ty, x);
  }

  lemma {:induction false} PlanIsAllowed(t: Tables, names: Naming, item: Item, exclude: nat, now: nat, ttl: nat, x: nat)
    requires x in Plan(t, names, item, exclude, now, ttl)
    ensures RouteAllowed(t, Some(exclude), Some(item.ty), x)
    ensures item.linkLocalOnly && !item.discovery && item.control.None? ==>
              SideAt(t, x).Some? && SideAt(t, x).value.linkLocal
  {
    hide RouteAllowed, SelectFor, Candidates;
    if item.discovery || item.control.None? {
      var (sides, origin) := Candidates(t, names, item, exclude, now, ttl);
      SelectedElement(t, exclude, sides, origin, x);
      CandidateAllowed(t, names, item, exclude, now, ttl, x);
    }
  }

  lemma {:induction false} CandidateAllowed(t: Tables, names: Naming, item: Item, exclude: nat, now: nat, ttl: nat,
      x: nat)
    requires x in Candidates(t, names, item, exclude, now, ttl).0
    ensures RouteAllowed(t, Some(exclude), Some(item.ty), x)
    ensures item.linkLocalOnly && !item.discovery ==> SideAt(t, x).Some? && SideAt(t, x).value.linkLocal
  {
    hide RouteAllowed, Unsatisfied, Usable, NamesSource, ReachesAny, Eligible;
    var exact := ExactTargets(t, item, exclude, t.routes, now, ttl);
    var known := KnownTargets(t, item, exclude, t.routes, now, ttl);
    if item.discovery {
      EligibleAllowed(t, exclude, item.ty, false, x);
    } else if |exact| + |known| > 0 {
      UnsatisfiedMeaning(t, names, item, if |exact| > 0 then exact else known, x);
      TargetAllowed(t, item, exclude, now, ttl, x);
    } else {
      EligibleAllowed(t, exclude, item.ty, item.linkLocalOnly, x);
    }
  }

  lemma {:induction false} TargetAllowed(t: Tables, item: Item, exclude: nat, now: nat, ttl: nat, x: nat)
    requires x in ExactTargets(t, item, exclude, t.routes, now, ttl)
             || x in KnownTargets(t, item, exclude, t.routes, now, ttl)
    ensures RouteAllowed(t, Some(exclude), Some(item.ty), x)
    ensures item.linkLocalOnly ==> SideAt(t, x).Some? && SideAt(t, x).value.linkLocal
  {
    hide RouteAllowed, NamesSource, ReachesAny, Usable;
    ExactMeaning(t, item, exclude, t.routes, now, ttl, x);
    KnownMeaning(t, item, exclude, t.routes, now, ttl, x);
    var i :| 0 <= i < |t.routes| && t.routes[i].side == x && Usable(t, item, exclude, t.routes[i], now, ttl);
    UsableAllowed(t, item, exclude, t.routes[i], now, ttl);
  }

  /**
    When a live route is known to reach the item's endpoints or its time source, only such sides are
    used; an exact time-source match beats a mere endpoint match.
   */
  lemma {:induction false} PlanFollowsDiscovery(t: Tables, names: Naming, item: Item, exclude: nat, now: nat, ttl: nat,
      x: nat)
    requires !item.discovery && item.control.None? && x in Plan(t, names, item, exclude, now, ttl)
    ensures |ExactTargets(t, item, exclude, t.routes, now, ttl)| > 0 ==>
              x in ExactTargets(t, item, exclude, t.routes, now, ttl)
    ensures |ExactTargets(t, item, exclude, t.routes, now, ttl)| == 0
            && |KnownTargets(t, item, exclude, t.routes, now, ttl)| > 0 ==>
              x in KnownTargets(t, item, exclude, t.routes, now, ttl)
  {
    hide RouteAllowed, SelectFor, Unsatisfied, ExactTargets, KnownTargets;
    var exact := ExactTargets(t, item, exclude, t.routes, now, ttl);
    var known := KnownTargets(t, item, exclude, t.routes, now, ttl);
    var origin := if item.reliable then Flood else Discovered;
    SelectedElement(t, exclude, Unsatisfied(t, names, item, exact), origin, x);
    UnsatisfiedMeaning(t, names, item, exact, x);
    SelectedElement(t, exclude, Unsatisfied(t, names, item, known), origin, x);
    UnsatisfiedMeaning(t, names, item, known, x);
  }

  /** Fan-out is in force for this item: by mode, or by default for what is not routed adaptively. */
  predicate FansOut(t: Tables, exclude: nat, origin: Origin)
  {
    if Some(exclude) in t.settings.modes then t.settings.modes[Some(exclude)] == Fanout else origin == Flood
  }

  /** The tables let the item go from the side it came from to side `x`, which is link-local if it has to be. */
  ghost predicate MayGo(t: Tables, item: Item, exclude: nat, x: nat)
  {
    && Connected(t, exclude, x) && RulesPermit(t, Some(exclude), item.ty, x)
    && (item.linkLocalOnly ==> t.sides[x].value.linkLocal)
  }

  /** The route was heard from within the time to live, and the item may go to its side. */
  ghost predicate LiveWay(t: Tables, item: Item, exclude: nat, r: Route, now: nat, ttl: nat)
  {
    now <= r.lastSeen + ttl && MayGo(t, item, exclude, r.side)
  }

  /** A live route leads to side `x`, by the time source the item wants or by one of its endpoints. */
  ghost predicate Reaches(t: Tables, item: Item, exclude: nat, now: nat, ttl: nat, bySource: bool, x: nat)
  {
    exists i :: 0 <= i < |t.routes| && t.routes[i].side == x && LiveWay(t, item, exclude, t.routes[i], now, ttl)
                && (item.source.Some? && item.source.value in t.routes[i].sources) == bySource
                && (bySource || exists e :: e in item.endpoints && e in t.routes[i].endpoints)
  }

  /** A route may be used exactly if it is live and the tables let the item go its way. */
  lemma {:induction false} UsableExactly(t: Tables, item: Item, exclude: nat, r: Route, now: nat, ttl: nat)
    ensures Usable(t, item, exclude, r, now, ttl) <==> LiveWay(t, item, exclude, r, now, ttl)
  {
    hide RouteAllowed, RulesPermit;
    AllowedExactly(t, exclude, item.ty, r.side);
  }

  lemma {:induction false} FansOutAll(t: Tables, exclude: nat, sides: seq<nat>, origin: Origin)
    requires FansOut(t, exclude, origin)
    ensures SelectFor(t, exclude, sides, origin) == sides
  {
    SelectionMeaning(t.settings, Some(exclude), sides, origin, CursorOf(t, exclude));
    hide Select;
  }

  lemma {:induction false} TargetsReach(t: Tables, item: Item, exclude: nat, now: nat, ttl: nat, x: nat)
    ensures x in ExactTargets(t, item, exclude, t.routes, now, ttl) <==> Reaches(t, item, exclude, now, ttl, true, x)
    ensures x in KnownTargets(t, item, exclude, t.routes, now, ttl) <==> Reaches(t, item, exclude, now, ttl, false, x)
  {
    hide Usable, LiveWay, ExactTargets, KnownTargets;
    ExactMeaning(t, item, exclude, t.routes, now, ttl, x);
    KnownMeaning(t, item, exclude, t.routes, now, ttl, x);
    forall i | 0 <= i < |t.routes|
      ensures Usable(t, item, exclude, t.routes[i], now, ttl) <==> LiveWay(t, item, exclude, t.routes[i], now, ttl)
    {
      UsableExactly(t, item, exclude, t.routes[i], now, ttl);
    }
  }

  /** Some live route leads to the wanted time source, or some live route leads to one of the endpoints. */
  ghost predicate WayKnown(t: Tables, item: Item, exclude: nat, now: nat, ttl: nat, bySource: bool)
  {
    exists y :: Reaches(t, item, exclude, now, ttl, bySource, y)
  }

  /**
    The sides among which an item's targets are selected. If live routes lead to the wanted time source, they are
    exactly their sides; if not, but some lead to an endpoint, exactly theirs; in both cases without the sides on
    which a reliable packet is acknowledged already. If discovery knows no way, and for discovery traffic itself,
    they are every side that the tables let it go to.
   */
  lemma {:induction false} CandidatesExactly(t: Tables, names: Naming, item: Item, exclude: nat, now: nat, ttl: nat,
      x: nat)
    requires item.discovery || item.control.None?
    ensures var (sides, origin) := Candidates(t, names, item, exclude, now, ttl);
            var bySource := WayKnown(t, item, exclude, now, ttl, true);
            var known := bySource || WayKnown(t, item, exclude, now, ttl, false);
            && (x in sides <==>
                  if item.discovery then Connected(t, exclude, x) && RulesPermit(t, Some(exclude), item.ty, x)
                  else if known then
                    Reaches(t, item, exclude, now, ttl, bySource, x) && (item.reliable ==> SideWaits(t, names, item, x))
                  else MayGo(t, item, exclude, x))
            && origin == (if item.discovery || item.reliable || !known then Flood else Discovered)
  {
    hide RouteAllowed, RulesPermit, ExactTargets, KnownTargets, Reaches, SideWaits, Usable, Waiting;
    var exact := ExactTargets(t, item, exclude, t.routes, now, ttl);
    var known := KnownTargets(t, item, exclude, t.routes, now, ttl);
    forall y
      ensures y in exact <==> Reaches(t, item, exclude, now, ttl, true, y)
      ensures y in known <==> Reaches(t, item, exclude, now, ttl, false, y)
    {
      TargetsReach(t, item, exclude, now, ttl, y);
    }
    assert |exact| > 0 ==> exact[0] in exact;
    assert |known| > 0 ==> known[0] in known;
    if !item.discovery {
      UnsatisfiedExactly(t, names, item, exact, x);
      UnsatisfiedExactly(t, names, item, known, x);
    }
    EligibleMeaning(t, Some(exclude), Some(item.ty), false, 0);
    EligibleMeaning(t, Some(exclude), Some(item.ty), item.linkLocalOnly, 0);
    AllowedExactly(t, exclude, item.ty, x);
  }

  /** The whole plan under fan-out: all of those sides, whether fan-out is configured or the default. */
  lemma {:induction false} FanoutPlanExactly(t: Tables, names: Naming, item: Item, exclude: nat, now: nat, ttl: nat,
      x: nat)
    requires item.discovery || item.control.None?
    requires var known := WayKnown(t, item, exclude, now, ttl, true) || WayKnown(t, item, exclude, now, ttl, false);
             FansOut(t, exclude, if item.discovery || item.reliable || !known then Flood else Discovered)
    ensures var bySource := WayKnown(t, item, exclude, now, ttl, true);
            x in Plan(t, names, item, exclude, now, ttl) <==>
              if item.discovery then Connected(t, exclude, x) && RulesPermit(t, Some(exclude), item.ty, x)
              else if bySource || WayKnown(t, item, exclude, now, ttl, false) then
                Reaches(t, item, exclude, now, ttl, bySource, x) && (item.reliable ==> SideWaits(t, names, item, x))
              else
                MayGo(t, item, exclude, x)
  {
    hide Candidates, SelectFor, Reaches, SideWaits, WayKnown, RulesPermit, MayGo;
    var (sides, origin) := Candidates(t, names, item, exclude, now, ttl);
    CandidatesExactly(t, names, item, exclude, now, ttl, x);
    FansOutAll(t, exclude, sides, origin);
  }

  lemma {:induction false} UnsatisfiedExactly(t: Tables, names: Naming, item: Item, sides: seq<nat>, x: nat)
    requires item.control.None?
    ensures x in Unsatisfied(t, names, item, sides) <==> x in sides && (item.reliable ==> SideWaits(t, names, item, x))
  {
    hide SideWaits;
    WaitingMeaning(t, names, item, sides, x);
  }

  /** An end-to-end acknowledgement goes back exactly along the noted return route, if that is still allowed. */
  lemma {:induction false} AckFollowsReturnRoute(t: Tables, names: Naming, item: Item, exclude: nat, now: nat,
      ttl: nat, x: nat)
    requires !item.discovery && item.control.Some?
    ensures x in Plan(t, names, item, exclude, now, ttl) <==>
              && item.control.value in t.returnRoutes && t.returnRoutes[item.control.value] == x
              && Connected(t, exclude, x) && RulesPermit(t, Some(exclude), item.ty, x)
  {
    hide RouteAllowed, Connected, RulesPermit;
    AllowedExactly(t, exclude, item.ty, x);
  }

  lemma {:induction false} BoardsOfMeaning(announcers: seq<Announcer>, b: Board)
    ensures b in BoardsOf(announcers) <==> exists i :: 0 <= i < |announcers| && b in announcers[i].boards
  {
    if |announcers| > 0 {
      BoardsOfMeaning(announcers[1..], b);
      assert forall i :: 0 < i < |announcers| ==> announcers[i] == announcers[1..][i - 1];
    }
  }

  /** An announcer of the route speaks of this board, and the board is an end-to-end destination. */
  ghost predicate HasDestination(names: Naming, r: Route, b: Board)
  {
    names.isDestination(b.sender) && exists i :: 0 <= i < |r.announcers| && b in r.announcers[i].boards
  }

  /**
    A reliable packet skips a discovered side exactly when some destination has acknowledged it, the side has a
    destination board, and every destination board of the side with one of its endpoints has acknowledged.
   */
  lemma {:induction false} SkippedExactly(t: Tables, names: Naming, item: Item, side: nat)
    ensures !SideWaits(t, names, item, side) <==>
              && item.id in t.acked && Lookup(t.routes, side).Some?
              && var r := Lookup(t.routes, side).value;
              && (exists b :: HasDestination(names, r, b))
              && (forall b :: HasDestination(names, r, b) && (exists e :: e in item.endpoints && e in b.endpoints) ==>
                    names.hash(b.sender) in t.acked[item.id])
  {
    hide BoardsOf, Lookup, StillPending;
    if item.id in t.acked && Lookup(t.routes, side).Some? {
      var r := Lookup(t.routes, side).value;
      PendingMeaning(names, item, t.acked[item.id], BoardsOf(r.announcers), false);
      forall b ensures b in BoardsOf(r.announcers) && Destination(names, b) <==> HasDestination(names, r, b) {
        BoardsOfMeaning(r.announcers, b);
      }
    }
  }
}
