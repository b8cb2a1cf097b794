/**
  One memory budget over six stores of the relay: three prioritized queues, the reservation for recent
  packet IDs, the reliable reorder buffers and the learned routes. An incoming item makes room for
  itself by taking the oldest item of the largest store, over and over.
 */
module QueueBudget {
  import opened Wrappers
  import ReliableTypes
  import opened BoundedDeques
  import opened CanonicalLists
  import opened DiscoveryRoutes

  datatype Config = Config(
    budget: nat, recentMax: nat, maxRecentIds: nat, maxPending: nat, ttl: nat, handleSize: nat, idSize: nat,
    rxElems: nat, txElems: nat, replayElems: nat, recentElems: nat, sizes: Sizes)

  /** The reservation fits the budget, and no queue has an element cap of zero. */
  ghost predicate ValidConfig(cfg: Config)
  {
    && cfg.idSize <= cfg.recentMax <= cfg.budget && cfg.maxRecentIds >= 1 && cfg.maxPending >= 1
    && cfg.rxElems >= 1 && cfg.txElems >= 1 && cfg.replayElems >= 1 && cfg.recentElems >= 1
  }

  /** A frame waiting in a reorder buffer: its stream, its number and its length. */
  datatype Early = Early(side: int, ty: nat, number: nat, length: nat)

  /** The six stores. Reorder buffers are listed by side, type and number; routes by side. */
  datatype Stores = Stores(
    rx: seq<Item>, tx: seq<Item>, replay: seq<Item>, recent: seq<Item>, early: seq<Early>, routes: seq<Route>)

  const EMPTY := Stores([], [], [], [], [], [])

  datatype Kind = Rx | Tx | Replay | Recent | EarlyFrames | Routes

  function EarlyBytes(cfg: Config, early: seq<Early>): nat
  {
    if early == [] then 0 else cfg.handleSize + early[0].length + EarlyBytes(cfg, early[1..])
  }

  /** Bytes a store can give back. Recent IDs give nothing back: their maximum is always reserved. */
  function Held(cfg: Config, s: Stores, k: Kind): nat
  {
    match k
    case Rx => Bytes(s.rx)
    case Tx => Bytes(s.tx)
    case Replay => Bytes(s.replay)
    case Recent => 0
    case EarlyFrames => EarlyBytes(cfg, s.early)
    case Routes => RoutesCost(cfg.sizes, s.routes)
  }

  function Used(cfg: Config, s: Stores): nat
  {
    Held(cfg, s, Rx) + Held(cfg, s, Tx) + Held(cfg, s, Replay) + cfg.recentMax
    + Held(cfg, s, EarlyFrames) + Held(cfg, s, Routes)
  }

  function Count(s: Stores): nat
  {
    |s.rx| + |s.tx| + |s.replay| + |s.recent| + |s.early| + |s.routes|
  }

  // -------------------------------------------------------------------------
  // Choosing and taking a victim
  // -------------------------------------------------------------------------

  /** On equal bytes reorder buffers give way to every other store, and otherwise the later store wins. */
  function Rank(k: Kind): nat { if k == EarlyFrames then 0 else 1 }

  function Larger(cfg: Config, s: Stores, best: Option<Kind>, k: Kind): Option<Kind>
  {
    if Held(cfg, s, k) == 0 then best
    else match best
      case None => Some(k)
      case Some(b) =>
        if Held(cfg, s, b) < Held(cfg, s, k) || (Held(cfg, s, b) == Held(cfg, s, k) && Rank(b) <= Rank(k))
        then Some(k) else best
  }

  function Victim(cfg: Config, s: Stores): Option<Kind>
  {
    var a := Larger(cfg, s, Larger(cfg, s, None, Rx), Tx);
    var b := Larger(cfg, s, Larger(cfg, s, a, Replay), Recent);
    Larger(cfg, s, Larger(cfg, s, b, EarlyFrames), Routes)
  }

  /** Position among the candidates. */
  function Place(k: Kind): nat
  {
    match k case Rx => 0 case Tx => 1 case Replay => 2 case Recent => 3 case EarlyFrames => 4 case Routes => 5
  }

  /**
    `k` is a largest store in front of place `n`. A tie goes to the last of the largest; only reorder buffers give
    way to every other of them.
   */
  ghost predicate LargestSoFar(cfg: Config, s: Stores, k: Option<Kind>, n: nat)
  {
    match k
    case None => forall j: Kind :: Place(j) < n ==> Held(cfg, s, j) == 0
    case Some(v) =>
      && Place(v) < n && Held(cfg, s, v) > 0
      && (forall j: Kind :: Place(j) < n ==> Held(cfg, s, j) <= Held(cfg, s, v))
      && (v == EarlyFrames ==> forall j: Kind :: Place(j) < n && j != v ==> Held(cfg, s, j) < Held(cfg, s, v))
      && (forall j: Kind :: Place(v) < Place(j) < n && Held(cfg, s, j) == Held(cfg, s, v) ==> j == EarlyFrames)
  }

  lemma {:induction false} LargerStep(cfg: Config, s: Stores, best: Option<Kind>, k: Kind)
    requires LargestSoFar(cfg, s, best, Place(k))
    ensures LargestSoFar(cfg, s, Larger(cfg, s, best, k), Place(k) + 1)
  {
    forall j: Kind | Place(j) < Place(k) + 1 ensures Place(j) < Place(k) || j == k {}
  }

  lemma {:induction false} NothingBefore(cfg: Config, s: Stores)
    ensures LargestSoFar(cfg, s, None, 0)
  {
  }

  /** There is a victim unless no store holds bytes, and it is a store with the most bytes. */
  lemma {:induction false} VictimIsLargest(cfg: Config, s: Stores)
    ensures LargestSoFar(cfg, s, Victim(cfg, s), 6)
  {
    hide Larger, LargestSoFar;
    NothingBefore(cfg, s);
    var a := Larger(cfg, s, None, Rx);
    LargerStep(cfg, s, None, Rx);
    var b := Larger(cfg, s, a, Tx);
    LargerStep(cfg, s, a, Tx);
    var c := Larger(cfg, s, b, Replay);
    LargerStep(cfg, s, b, Replay);
    var d := Larger(cfg, s, c, Recent);
    LargerStep(cfg, s, c, Recent);
    var e := Larger(cfg, s, d, EarlyFrames);
    LargerStep(cfg, s, d, EarlyFrames);
    LargerStep(cfg, s, e, Routes);
  }

  /** The tie rules leave one victim. */
  lemma {:induction false} OneVictim(cfg: Config, s: Stores, a: Option<Kind>, b: Option<Kind>)
    requires LargestSoFar(cfg, s, a, 6) && LargestSoFar(cfg, s, b, 6)
    ensures a == b
  {
    hide Held;
    if a.Some? && b.Some? {
      assert Place(a.value) == Place(b.value);
    }
  }

  lemma {:induction false} LargerIs(cfg: Config, s: Stores, best: Option<Kind>, k: Kind)
    ensures Larger(cfg, s, best, k)
            == if Held(cfg, s, k) > 0 && (best.None? || Held(cfg, s, best.value) < Held(cfg, s, k)
                  || (Held(cfg, s, best.value) == Held(cfg, s, k) && Rank(best.value) <= Rank(k)))
               then Some(k) else best
  {
    hide Held, Rank;
  }

  /**
    The store without its oldest item: the front of a queue, the first waiting frame, the least recently
    heard route.
   */
  function Popped(s: Stores, k: Kind): Option<Stores>
  {
    match k
    case Rx => if s.rx == [] then None else Some(s.(rx := s.rx[1..]))
    case Tx => if s.tx == [] then None else Some(s.(tx := s.tx[1..]))
    case Replay => if s.replay == [] then None else Some(s.(replay := s.replay[1..]))
    case Recent => if s.recent == [] then None else Some(s.(recent := s.recent[1..]))
    case EarlyFrames => if s.early == [] then None else Some(s.(early := s.early[1..]))
    case Routes => if s.routes == [] then None else Some(s.(routes := WithoutRoute(s.routes, Oldest(s.routes))))
  }

  /** One pass of the loop: the largest store gives up an item, or else the preferred one does. */
  function Evicted(cfg: Config, s: Stores, preferred: Kind): Option<Stores>
  {
    var victim := match Victim(cfg, s) case Some(k) => k case None => preferred;
    var t := Popped(s, victim);
    if t.Some? then t else Popped(s, preferred)
  }

  lemma {:induction false} FrontBytes(q: seq<Item>)
    requires q != []
    ensures Bytes(q[1..]) <= Bytes(q)
  {
    BytesPrefix(q, 1);
  }

  /** Taking an item takes exactly one item, costs no other store anything and frees what it held. */
  lemma {:induction false} PoppedShrinks(cfg: Config, s: Stores, k: Kind)
    requires Popped(s, k).Some?
    ensures var t := Popped(s, k).value;
            && Count(t) == Count(s) - 1
            && Held(cfg, t, k) <= Held(cfg, s, k)
            && (forall j: Kind :: j != k ==> Held(cfg, t, j) == Held(cfg, s, j))
            && (AllConsistent(s.routes) ==> AllConsistent(t.routes))
  {
    match k
    case Rx => FrontBytes(s.rx);
    case Tx => FrontBytes(s.tx);
    case Replay => FrontBytes(s.replay);
    case Recent =>
    case EarlyFrames =>
    case Routes => WithoutRouteCost(cfg.sizes, s.routes, Oldest(s.routes));
  }

  /** `t` is `s` without one route: the one heard from least recently, of the lowest side if several are. */
  ghost predicate WithoutStalest(s: seq<Route>, t: seq<Route>)
  {
    exists i :: 0 <= i < |s| && t == s[..i] + s[i + 1..]
                && (forall k :: 0 <= k < |s| ==> s[i].lastSeen <= s[k].lastSeen)
                && (forall k :: 0 <= k < i ==> s[i].lastSeen < s[k].lastSeen)
  }

  /** Taking from a store takes its front, or the stalest route, and leaves the other five stores alone. */
  lemma {:induction false} PoppedIsFront(s: Stores, k: Kind)
    ensures match Popped(s, k)
            case None =>
              (match k case Rx => s.rx == [] case Tx => s.tx == [] case Replay => s.replay == []
                       case Recent => s.recent == [] case EarlyFrames => s.early == [] case Routes => s.routes == [])
            case Some(t) =>
              match k
              case Rx => s.rx != [] && s.rx == [s.rx[0]] + t.rx && t == s.(rx := t.rx)
              case Tx => s.tx != [] && s.tx == [s.tx[0]] + t.tx && t == s.(tx := t.tx)
              case Replay => s.replay != [] && s.replay == [s.replay[0]] + t.replay && t == s.(replay := t.replay)
              case Recent => s.recent != [] && s.recent == [s.recent[0]] + t.recent && t == s.(recent := t.recent)
              case EarlyFrames => s.early != [] && s.early == [s.early[0]] + t.early && t == s.(early := t.early)
              case Routes => WithoutStalest(s.routes, t.routes) && t == s.(routes := t.routes)
  {
  }

  lemma {:induction false} HoldingIsNonempty(cfg: Config, s: Stores, k: Kind)
    requires Held(cfg, s, k) > 0
    ensures Popped(s, k).Some?
  {
  }

  // -------------------------------------------------------------------------
  // Making room
  // -------------------------------------------------------------------------

  function Evicting(cfg: Config, s: Stores, cost: nat, preferred: Kind): (Stores, bool)
    decreases Count(s)
  {
    if Used(cfg, s) + cost <= cfg.budget then (s, true)
    else match Evicted(cfg, s, preferred)
      case None => (s, false)
      case Some(t) =>
        EvictedShrinks(cfg, s, preferred);
        Evicting(cfg, t, cost, preferred)
  }

  function MakeRoom(cfg: Config, s: Stores, cost: nat, preferred: Kind): (Stores, bool)
  {
    if cost > cfg.budget then (s, false) else Evicting(cfg, s, cost, preferred)
  }

  /** Nothing anywhere grows, and the measure of the loop goes down by one. */
  lemma {:induction false} EvictedShrinks(cfg: Config, s: Stores, preferred: Kind)
    ensures var t := Evicted(cfg, s, preferred);
            t.Some? ==>
              && Count(t.value) == Count(s) - 1
              && (forall k: Kind :: Held(cfg, t.value, k) <= Held(cfg, s, k))
              && (AllConsistent(s.routes) ==> AllConsistent(t.value.routes))
  {
    hide Held, Count, Popped, Victim, AllConsistent;
    var victim := match Victim(cfg, s) case Some(k) => k case None => preferred;
    if Popped(s, victim).Some? {
      PoppedShrinks(cfg, s, victim);
    } else if Popped(s, preferred).Some? {
      PoppedShrinks(cfg, s, preferred);
    }
  }

  /**
    Each pass takes from the largest store, by the tie rules, as long as some store holds bytes; and from the
    preferred one when none does.
   */
  lemma {:induction false} EvictedFromLargest(cfg: Config, s: Stores, preferred: Kind)
    ensures var largest := Victim(cfg, s);
            && LargestSoFar(cfg, s, largest, 6)
            && (largest.Some? ==> Popped(s, largest.value).Some?
                                  && Evicted(cfg, s, preferred) == Popped(s, largest.value))
            && (largest.None? ==> Evicted(cfg, s, preferred) == Popped(s, preferred)
                                  && forall k: Kind :: Held(cfg, s, k) == 0)
  {
    hide Larger;
    VictimIsLargest(cfg, s);
    match Victim(cfg, s)
    case None =>
      forall k: Kind ensures Held(cfg, s, k) == 0 { assert Place(k) < 6; }
    case Some(v) =>
      HoldingIsNonempty(cfg, s, v);
  }

  /** The loop gets stuck only when no store holds any byte and the preferred one is empty. */
  lemma {:induction false} StuckWhenDrained(cfg: Config, s: Stores, preferred: Kind)
    requires Evicted(cfg, s, preferred).None?
    ensures forall k: Kind :: Held(cfg, s, k) == 0
    ensures Used(cfg, s) == cfg.recentMax && Popped(s, preferred).None?
  {
    VictimIsLargest(cfg, s);
    match Victim(cfg, s)
    case None =>
      forall k: Kind ensures Held(cfg, s, k) == 0 { assert Place(k) < 6; }
    case Some(v) =>
      HoldingIsNonempty(cfg, s, v);
  }

  /**
    Room is made exactly when the item fits beside the reservation for recent IDs; a failure of the
    loop leaves every byte-holding store empty.
   */
  lemma {:induction false} EvictingExact(cfg: Config, s: Stores, cost: nat, preferred: Kind)
    ensures var (t, ok) := Evicting(cfg, s, cost, preferred);
            && (ok <==> cost + cfg.recentMax <= cfg.budget)
            && (ok ==> Used(cfg, t) + cost <= cfg.budget)
            && (!ok ==> Popped(t, preferred).None? && forall k: Kind :: Held(cfg, t, k) == 0)
            && (forall k: Kind :: Held(cfg, t, k) <= Held(cfg, s, k))
            && (AllConsistent(s.routes) ==> AllConsistent(t.routes))
    decreases Count(s)
  {
    hide Held, Count, Popped, Victim, AllConsistent, Evicted;
    if Used(cfg, s) + cost > cfg.budget {
      match Evicted(cfg, s, preferred)
      case None =>
        StuckWhenDrained(cfg, s, preferred);
      case Some(t) =>
        EvictedShrinks(cfg, s, preferred);
        EvictingExact(cfg, t, cost, preferred);
    }
  }

  lemma {:induction false} RoomExactly(cfg: Config, s: Stores, cost: nat, preferred: Kind)
    ensures var (t, ok) := MakeRoom(cfg, s, cost, preferred);
            && (ok <==> cost + cfg.recentMax <= cfg.budget)
            && (ok ==> Used(cfg, t) + cost <= cfg.budget)
            && (cost > cfg.budget ==> t == s)
            && (!ok && cost <= cfg.budget ==> Used(cfg, t) == cfg.recentMax && Popped(t, preferred).None?)
            && (forall k: Kind :: Held(cfg, t, k) <= Held(cfg, s, k))
            && (AllConsistent(s.routes) ==> AllConsistent(t.routes))
  {
    EvictingExact(cfg, s, cost, preferred);
  }

  /** The stores after `n` passes of the loop. */
  function AfterPasses(cfg: Config, s: Stores, preferred: Kind, n: nat): Option<Stores>
    decreases n
  {
    if n == 0 then Some(s)
    else match Evicted(cfg, s, preferred)
      case None => None
      case Some(t) => AfterPasses(cfg, t, preferred, n - 1)
  }

  /** No item is given up without need: before every pass the item did not fit yet. */
  lemma {:induction false} EvictsOnlyWhileOver(cfg: Config, s: Stores, cost: nat, preferred: Kind) returns (n: nat)
    ensures n <= Count(s) && AfterPasses(cfg, s, preferred, n) == Some(Evicting(cfg, s, cost, preferred).0)
    ensures forall m: nat :: m < n ==>
              var t := AfterPasses(cfg, s, preferred, m); t.Some? && Used(cfg, t.value) + cost > cfg.budget
    decreases Count(s)
  {
    hide Held, Used, Count, Victim, Evicted;
    n := 0;
    if Used(cfg, s) + cost > cfg.budget && Evicted(cfg, s, preferred).Some? {
      var t := Evicted(cfg, s, preferred).value;
      EvictedShrinks(cfg, s, preferred);
      n := EvictsOnlyWhileOver(cfg, t, cost, preferred);
      n := n + 1;
      forall m: nat | m < n
        ensures var u := AfterPasses(cfg, s, preferred, m); u.Some? && Used(cfg, u.value) + cost > cfg.budget
      {
        if m > 0 {
          assert AfterPasses(cfg, s, preferred, m) == AfterPasses(cfg, t, preferred, m - 1);
        }
      }
    }
  }

  // -------------------------------------------------------------------------
  // What is charged
  // -------------------------------------------------------------------------

  lemma {:induction false} OneMoreItem(q: seq<Item>, v: Item)
    ensures Bytes(q + [v]) == Bytes(q) + v.cost
  {
    assert (q + [v])[..|q|] == q;
  }

  lemma {:induction false} OneMoreFrame(cfg: Config, early: seq<Early>, f: Early)
    ensures EarlyBytes(cfg, early + [f]) == EarlyBytes(cfg, early) + cfg.handleSize + f.length
  {
    if early == [] {
      assert [f][1..] == [] && early + [f] == [f];
    } else {
      assert (early + [f])[1..] == early[1..] + [f];
      OneMoreFrame(cfg, early[1..], f);
    }
  }

  lemma {:induction false} OneMoreRoute(sz: Sizes, routes: seq<Route>, r: Route)
    ensures RoutesCost(sz, routes + [r]) == RoutesCost(sz, routes) + RouteCost(sz, r)
  {
    hide RouteCost;
    RoutesCostConcat(sz, routes, [r]);
    assert [r][1..] == [];
    assert RoutesCost(sz, [r]) == RouteCost(sz, r) + RoutesCost(sz, []);
  }

  /**
    The bytes in use, item by item: empty stores use the reservation; a queued item adds its cost, a waiting frame
    its handle and its length, a route its cost; a recent ID adds nothing.
   */
  lemma {:induction false} ChargesAddUp(cfg: Config, s: Stores, v: Item, f: Early, r: Route)
    ensures Used(cfg, EMPTY) == cfg.recentMax
    ensures Used(cfg, s.(rx := s.rx + [v])) == Used(cfg, s) + v.cost
    ensures Used(cfg, s.(tx := s.tx + [v])) == Used(cfg, s) + v.cost
    ensures Used(cfg, s.(replay := s.replay + [v])) == Used(cfg, s) + v.cost
    ensures Used(cfg, s.(recent := s.recent + [v])) == Used(cfg, s)
    ensures Used(cfg, s.(early := s.early + [f])) == Used(cfg, s) + cfg.handleSize + f.length
    ensures Used(cfg, s.(routes := s.routes + [r])) == Used(cfg, s) + RouteCost(cfg.sizes, r)
  {
    hide Bytes, EarlyBytes, RoutesCost, RouteCost;
    OneMoreItem(s.rx, v);
    OneMoreItem(s.tx, v);
    OneMoreItem(s.replay, v);
    OneMoreFrame(cfg, s.early, f);
    OneMoreRoute(cfg.sizes, s.routes, r);
    NothingCharged(cfg);
  }

  lemma {:induction false} NothingCharged(cfg: Config)
    ensures Used(cfg, EMPTY) == cfg.recentMax
  {
  }

  // -------------------------------------------------------------------------
  // Operations
  // -------------------------------------------------------------------------

  function PushedRx(cfg: Config, s: Stores, v: Item): (Stores, PushOutcome)
    requires cfg.rxElems >= 1
  {
    var (t, ok) := MakeRoom(cfg, s, v.cost, Rx);
    if !ok then (t, TooLarge)
    else
      var (q, outcome) := PushPrioritized(t.rx, v, cfg.budget, cfg.rxElems);
      (t.(rx := q), outcome)
  }

  function PushedTx(cfg: Config, s: Stores, v: Item): (Stores, PushOutcome)
    requires cfg.txElems >= 1
  {
    var (t, ok) := MakeRoom(cfg, s, v.cost, Tx);
    if !ok then (t, TooLarge)
    else
      var (q, outcome) := PushPrioritized(t.tx, v, cfg.budget, cfg.txElems);
      (t.(tx := q), outcome)
  }

  function PushedReplay(cfg: Config, s: Stores, v: Item): (Stores, PushOutcome)
    requires cfg.replayElems >= 1
  {
    var (t, ok) := MakeRoom(cfg, s, v.cost, Replay);
    if !ok then (t, TooLarge)
    else
      var (q, outcome) := PushPrioritized(t.replay, v, cfg.budget, cfg.replayElems);
      (t.(replay := q), outcome)
  }

  /** The newest IDs, fewer than the maximum. */
  function FewerThan(q: seq<Item>, max: nat): seq<Item>
    requires max >= 1
    decreases |q|
  {
    if |q| < max then q else FewerThan(q[1..], max)
  }

  function RecentItem(cfg: Config, id: nat): Item
  {
    Item(id, cfg.idSize, 0, 0, 0)
  }

  function PushedRecent(cfg: Config, s: Stores, id: nat): (Stores, PushOutcome)
    requires cfg.maxRecentIds >= 1 && cfg.recentElems >= 1
  {
    var (t, ok) := MakeRoom(cfg, s.(recent := FewerThan(s.recent, cfg.maxRecentIds)), 0, Recent);
    if !ok then (t, TooLarge)
    else
      var (q, outcome) := PushFifo(t.recent, RecentItem(cfg, id), cfg.recentMax, cfg.recentElems);
      (t.(recent := q), outcome)
  }

  predicate SameStream(a: Early, b: Early)
  {
    a.side == b.side && a.ty == b.ty
  }

  predicate Waiting(early: seq<Early>, f: Early)
  {
    exists i :: 0 <= i < |early| && SameStream(early[i], f) && early[i].number == f.number
  }

  function StreamLength(early: seq<Early>, f: Early): nat
  {
    if early == [] then 0 else (if SameStream(early[0], f) then 1 else 0) + StreamLength(early[1..], f)
  }

  function WithoutFirst(early: seq<Early>, f: Early): seq<Early>
  {
    if early == [] then [] else if SameStream(early[0], f) then early[1..] else [early[0]] + WithoutFirst(early[1..], f)
  }

  predicate Before(a: Early, b: Early)
  {
    a.side < b.side || (a.side == b.side && (a.ty < b.ty || (a.ty == b.ty && a.number < b.number)))
  }

  function WithEarly(early: seq<Early>, f: Early): seq<Early>
  {
    if early == [] || Before(f, early[0]) then [f] + early else [early[0]] + WithEarly(early[1..], f)
  }

  /** A full stream gives up its lowest number for the new frame. */
  function WithFrame(cfg: Config, early: seq<Early>, f: Early): seq<Early>
  {
    WithEarly(if StreamLength(early, f) >= cfg.maxPending then WithoutFirst(early, f) else early, f)
  }

  /** A frame already waiting is not charged twice. */
  function Buffered(cfg: Config, s: Stores, f: Early): (Stores, bool)
  {
    if Waiting(s.early, f) then (s, true)
    else
      var (t, ok) := MakeRoom(cfg, s, cfg.handleSize + f.length, EarlyFrames);
      if ok then (t.(early := WithFrame(cfg, t.early, f)), true) else (t, false)
  }

  /** Bytes charged to everything but the routes. */
  function Others(cfg: Config, s: Stores): nat
  {
    Held(cfg, s, Rx) + Held(cfg, s, Tx) + Held(cfg, s, Replay) + cfg.recentMax + Held(cfg, s, EarlyFrames)
  }

  function PrunedStores(cfg: Config, s: Stores, now: nat): Stores
  {
    s.(routes := Pruned(s.routes, now, cfg.ttl))
  }

  /** One announcer's fresh statement: the oldest routes go if it is too much, then whatever has expired. */
  function LearnedStores(cfg: Config, s: Stores, side: nat, a: Announcer, now: nat): Stores
  {
    var routes := Learned(s.routes, side, a);
    PrunedStores(cfg, s.(routes := Fitted(cfg.sizes, routes, Others(cfg, s), cfg.budget)), now)
  }

  function KeptFrames(early: seq<Early>, keep: Early -> bool): seq<Early>
  {
    if early == [] then []
    else (if keep(early[0]) then [early[0]] else []) + KeptFrames(early[1..], keep)
  }

  function WithoutSideRoute(routes: seq<Route>, side: int): seq<Route>
  {
    if routes == [] then []
    else (if routes[0].side == side then [] else [routes[0]]) + WithoutSideRoute(routes[1..], side)
  }

  function RemovedSide(s: Stores, side: int): Stores
  {
    Stores(
      Retained(s.rx, (x: Item) => x.src != side),
      Retained(s.tx, (x: Item) => x.dst != side && x.src != side),
      Retained(s.replay, (x: Item) => x.dst != side),
      s.recent, KeptFrames(s.early, (f: Early) => f.side != side), WithoutSideRoute(s.routes, side))
  }

  function Outside(side: int, ty: nat, numbers: set<nat>): Early -> bool
  {
    (f: Early) => !(f.side == side && f.ty == ty && f.number in numbers)
  }

  /** A release takes frames of one stream out of its reorder buffer, wherever they stand in the listing. */
  function Released(s: Stores, side: int, ty: nat, numbers: set<nat>): Stores
  {
    s.(early := KeptFrames(s.early, Outside(side, ty, numbers)))
  }

  /** A side whose egress is switched off gets nothing more of what is queued for it. */
  function EgressDisabled(s: Stores, side: int): Stores
  {
    s.(tx := Retained(s.tx, (x: Item) => x.dst != side), replay := Retained(s.replay, (x: Item) => x.dst != side))
  }

  datatype Op =
    | PushRx(item: Item) | PushTx(item: Item) | PushReplay(item: Item) | PushRecent(id: nat)
    | Buffer(frame: Early) | Take(kind: Kind) | Learn(at: nat, announcer: Announcer, now: nat) | Prune(now: nat)
    | Release(from: int, ty: nat, numbers: set<nat>) | DisableEgress(side: int) | RemoveSide(side: int)
    | ClearRx | ClearTx(withReplay: bool)

  function Apply(cfg: Config, s: Stores, op: Op): Stores
    requires cfg.rxElems >= 1 && cfg.txElems >= 1 && cfg.replayElems >= 1 && cfg.recentElems >= 1
    requires cfg.maxRecentIds >= 1
  {
    match op
    case PushRx(v) => PushedRx(cfg, s, v).0
    case PushTx(v) => PushedTx(cfg, s, v).0
    case PushReplay(v) => PushedReplay(cfg, s, v).0
    case PushRecent(id) => PushedRecent(cfg, s, id).0
    case Buffer(f) => Buffered(cfg, s, f).0
    case Take(k) => (match Popped(s, k) case Some(t) => t case None => s)
    case Learn(side, a, now) => LearnedStores(cfg, s, side, a, now)
    case Prune(now) => PrunedStores(cfg, s, now)
    case Release(side, ty, numbers) => Released(s, side, ty, numbers)
    case DisableEgress(side) => EgressDisabled(s, side)
    case RemoveSide(side) => RemovedSide(s, side)
    case ClearRx => s.(rx := [])
    case ClearTx(withReplay) => s.(tx := [], replay := if withReplay then [] else s.replay)
  }

  // -------------------------------------------------------------------------
  // Every operation keeps the budget
  // -------------------------------------------------------------------------

  /** The accounting invariant. */
  ghost predicate WithinBudget(cfg: Config, s: Stores)
  {
    Used(cfg, s) <= cfg.budget && AllConsistent(s.routes)
  }

  /** No store holds more than before. */
  ghost predicate NoGrowth(cfg: Config, s: Stores, t: Stores)
  {
    forall k: Kind :: Held(cfg, t, k) <= Held(cfg, s, k)
  }

  /** A prioritized push adds at most the cost of the new item, whatever its outcome. */
  lemma {:induction false} PushAddsAtMost(q: seq<Item>, v: Item, maxBytes: nat, maxElems: nat)
    requires maxElems >= 1
    ensures Bytes(PushPrioritized(q, v, maxBytes, maxElems).0) <= Bytes(q) + v.cost
  {
    hide PushPrioritized, Inserted;
    var k := OnlyLowerEvicted(q, v, maxBytes, maxElems);
    BytesPrefix(q, k);
    BytesInserted(q[..k], v);
  }

  lemma {:induction false} PushesKeepBudget(cfg: Config, s: Stores, v: Item)
    requires ValidConfig(cfg) && WithinBudget(cfg, s)
    ensures WithinBudget(cfg, PushedRx(cfg, s, v).0)
    ensures WithinBudget(cfg, PushedTx(cfg, s, v).0)
    ensures WithinBudget(cfg, PushedReplay(cfg, s, v).0)
  {
    hide MakeRoom, PushPrioritized, Bytes, EarlyBytes, RoutesCost, AllConsistent;
    RoomExactly(cfg, s, v.cost, Rx);
    RoomExactly(cfg, s, v.cost, Tx);
    RoomExactly(cfg, s, v.cost, Replay);
    PushAddsAtMost(MakeRoom(cfg, s, v.cost, Rx).0.rx, v, cfg.budget, cfg.rxElems);
    PushAddsAtMost(MakeRoom(cfg, s, v.cost, Tx).0.tx, v, cfg.budget, cfg.txElems);
    PushAddsAtMost(MakeRoom(cfg, s, v.cost, Replay).0.replay, v, cfg.budget, cfg.replayElems);
  }

  lemma {:induction false} RecentKeepsBudget(cfg: Config, s: Stores, id: nat)
    requires ValidConfig(cfg) && WithinBudget(cfg, s)
    ensures WithinBudget(cfg, PushedRecent(cfg, s, id).0)
  {
    hide MakeRoom, PushFifo, Bytes, EarlyBytes, RoutesCost, AllConsistent, FewerThan;
    RoomExactly(cfg, s.(recent := FewerThan(s.recent, cfg.maxRecentIds)), 0, Recent);
  }

  lemma {:induction false} EarlyBytesLess(cfg: Config, early: seq<Early>, f: Early)
    ensures EarlyBytes(cfg, WithoutFirst(early, f)) <= EarlyBytes(cfg, early)
    ensures EarlyBytes(cfg, WithEarly(early, f)) == EarlyBytes(cfg, early) + cfg.handleSize + f.length
  {
    if early == [] {
      assert EarlyBytes(cfg, [f]) == cfg.handleSize + f.length;
    } else {
      EarlyBytesLess(cfg, early[1..], f);
      var rest2 := WithoutFirst(early[1..], f);
      assert ([early[0]] + rest2)[1..] == rest2;
      var rest3 := WithEarly(early[1..], f);
      assert ([early[0]] + rest3)[1..] == rest3;
      assert ([f] + early)[1..] == early;
    }
  }

  lemma {:induction false} KeptFramesMeaning(cfg: Config, early: seq<Early>, keep: Early -> bool, f: Early)
    ensures f in KeptFrames(early, keep) <==> f in early && keep(f)
    ensures EarlyBytes(cfg, KeptFrames(early, keep)) <= EarlyBytes(cfg, early)
  {
    if early != [] {
      KeptFramesMeaning(cfg, early[1..], keep, f);
      assert early == [early[0]] + early[1..];
      var rest := KeptFrames(early[1..], keep);
      assert ([early[0]] + rest)[1..] == rest && [] + rest == rest;
    }
  }

  lemma {:induction false} BufferKeepsBudget(cfg: Config, s: Stores, f: Early)
    requires ValidConfig(cfg) && WithinBudget(cfg, s)
    ensures WithinBudget(cfg, Buffered(cfg, s, f).0)
  {
    hide MakeRoom, Bytes, EarlyBytes, RoutesCost, AllConsistent, WithoutFirst, WithEarly, Waiting, StreamLength;
    RoomExactly(cfg, s, cfg.handleSize + f.length, EarlyFrames);
    var t := MakeRoom(cfg, s, cfg.handleSize + f.length, EarlyFrames).0;
    EarlyBytesLess(cfg, t.early, f);
    EarlyBytesLess(cfg, WithoutFirst(t.early, f), f);
  }

  lemma {:induction false} PruneKeepsBudget(cfg: Config, s: Stores, now: nat)
    requires WithinBudget(cfg, s)
    ensures WithinBudget(cfg, PrunedStores(cfg, s, now))
  {
    hide Bytes, EarlyBytes, RoutesCost, AllConsistent, Pruned;
    PruneCostsLess(cfg.sizes, s.routes, now, cfg.ttl);
    PruneConsistent(s.routes, now, cfg.ttl);
  }

  lemma {:induction false} LearnKeepsBudget(cfg: Config, s: Stores, side: nat, a: Announcer, now: nat)
    requires WithinBudget(cfg, s)
    ensures WithinBudget(cfg, LearnedStores(cfg, s, side, a, now))
  {
    hide Bytes, EarlyBytes, RoutesCost, AllConsistent, Pruned, Learned, Fitted;
    var routes := Learned(s.routes, side, a);
    LearnedConsistent(s.routes, side, a);
    FittedFits(cfg.sizes, routes, Others(cfg, s), cfg.budget);
    PruneKeepsBudget(cfg, s.(routes := Fitted(cfg.sizes, routes, Others(cfg, s), cfg.budget)), now);
  }

  lemma {:induction false} WithoutSideRouteCostsLess(sz: Sizes, routes: seq<Route>, side: int)
    requires AllConsistent(routes)
    ensures RoutesCost(sz, WithoutSideRoute(routes, side)) <= RoutesCost(sz, routes)
    ensures AllConsistent(WithoutSideRoute(routes, side))
  {
    if routes != [] {
      hide RouteCost, Consistent;
      WithoutSideRouteCostsLess(sz, routes[1..], side);
      var rest := WithoutSideRoute(routes[1..], side);
      assert ([routes[0]] + rest)[1..] == rest && [] + rest == rest;
    }
  }

  lemma {:induction false} RemoveSideKeepsBudget(cfg: Config, s: Stores, side: int)
    requires WithinBudget(cfg, s)
    ensures WithinBudget(cfg, RemovedSide(s, side)) && NoGrowth(cfg, s, RemovedSide(s, side))
  {
    hide Bytes, EarlyBytes, RoutesCost, AllConsistent, Retained, KeptFrames, WithoutSideRoute;
    RetainedBytes(s.rx, (x: Item) => x.src != side);
    RetainedBytes(s.tx, (x: Item) => x.dst != side && x.src != side);
    RetainedBytes(s.replay, (x: Item) => x.dst != side);
    KeptFramesMeaning(cfg, s.early, (f: Early) => f.side != side, Early(side, 0, 0, 0));
    WithoutSideRouteCostsLess(cfg.sizes, s.routes, side);
  }

  lemma {:induction false} WithoutSideRouteMeaning(routes: seq<Route>, side: int, r: Route)
    ensures r in WithoutSideRoute(routes, side) <==> r in routes && r.side != side
  {
    if routes != [] {
      WithoutSideRouteMeaning(routes[1..], side, r);
      assert routes == [routes[0]] + routes[1..];
    }
  }

  /** A removed side leaves nothing behind in any store, and nothing of another side is lost. */
  lemma {:induction false} RemovedSideMeaning(cfg: Config, s: Stores, side: int, x: Item, f: Early, r: Route)
    ensures var t := RemovedSide(s, side);
            && (x in t.rx <==> x in s.rx && x.src != side)
            && (x in t.tx <==> x in s.tx && x.dst != side && x.src != side)
            && (x in t.replay <==> x in s.replay && x.dst != side)
            && (f in t.early <==> f in s.early && f.side != side)
            && (r in t.routes <==> r in s.routes && r.side != side)
            && t.recent == s.recent
  {
    hide Bytes, Retained, KeptFrames, WithoutSideRoute;
    RetainedBytes(s.rx, (y: Item) => y.src != side);
    RetainedBytes(s.tx, (y: Item) => y.dst != side && y.src != side);
    RetainedBytes(s.replay, (y: Item) => y.dst != side);
    KeptFramesMeaning(cfg, s.early, (g: Early) => g.side != side, f);
    WithoutSideRouteMeaning(s.routes, side, r);
  }

  lemma {:induction false} ReleaseKeepsBudget(cfg: Config, s: Stores, side: int, ty: nat, numbers: set<nat>)
    requires WithinBudget(cfg, s)
    ensures WithinBudget(cfg, Released(s, side, ty, numbers)) && NoGrowth(cfg, s, Released(s, side, ty, numbers))
  {
    hide Bytes, EarlyBytes, RoutesCost, AllConsistent, KeptFrames;
    KeptFramesMeaning(cfg, s.early, Outside(side, ty, numbers), Early(side, ty, 0, 0));
  }

  lemma {:induction false} KeptFramesTwice(
    early: seq<Early>, keep: Early -> bool, also: Early -> bool, both: Early -> bool)
    requires forall f :: both(f) <==> keep(f) && also(f)
    ensures KeptFrames(KeptFrames(early, keep), also) == KeptFrames(early, both)
  {
    if early != [] {
      KeptFramesTwice(early[1..], keep, also, both);
      var rest := KeptFrames(early[1..], keep);
      if keep(early[0]) {
        assert ([early[0]] + rest)[1..] == rest;
      } else {
        assert [] + rest == rest;
      }
    }
  }

  lemma {:induction false} AllKept(early: seq<Early>, keep: Early -> bool)
    requires forall f :: f in early ==> keep(f)
    ensures KeptFrames(early, keep) == early
  {
    if early != [] {
      assert early == [early[0]] + early[1..];
      AllKept(early[1..], keep);
    }
  }

  lemma {:induction false} FewerKept(early: seq<Early>, keep: Early -> bool)
    ensures |KeptFrames(early, keep)| <= |early|
    ensures (exists f :: f in early && !keep(f)) ==> |KeptFrames(early, keep)| < |early|
  {
    if early != [] {
      assert early == [early[0]] + early[1..];
      FewerKept(early[1..], keep);
    }
  }

  lemma {:induction false} ReleasedNothing(s: Stores, side: int, ty: nat)
    ensures Released(s, side, ty, {}) == s
  {
    AllKept(s.early, Outside(side, ty, {}));
  }

  /** The `k`-th number from `first` on; 0 is skipped. */
  function NumberFrom(first: nat, k: nat): nat
  {
    if k == 0 then first else ReliableTypes.AfterSeq(NumberFrom(first, k - 1))
  }

  /** The consecutive numbers from `first` on, `count` of them. */
  function NumbersFrom(first: nat, count: nat): set<nat>
  {
    if count == 0 then {} else NumbersFrom(first, count - 1) + {NumberFrom(first, count - 1)}
  }

  /** Releasing one number more is releasing it from what the others left. */
  lemma {:induction false} ReleasedOneMore(cfg: Config, s: Stores, side: int, ty: nat, numbers: set<nat>, n: nat)
    requires Waiting(Released(s, side, ty, numbers).early, Early(side, ty, n, 0))
    ensures Released(Released(s, side, ty, numbers), side, ty, {n}) == Released(s, side, ty, numbers + {n})
    ensures |Released(s, side, ty, numbers + {n}).early| < |Released(s, side, ty, numbers).early|
    ensures Waiting(s.early, Early(side, ty, n, 0))
  {
    hide KeptFrames;
    var keep := Outside(side, ty, numbers);
    var also := Outside(side, ty, {n});
    var both := Outside(side, ty, numbers + {n});
    KeptFramesTwice(s.early, keep, also, both);
    var left := Released(s, side, ty, numbers).early;
    FewerKept(left, also);
    var i :| 0 <= i < |left| && SameStream(left[i], Early(side, ty, n, 0)) && left[i].number == n;
    assert left[i] in left && !also(left[i]);
    KeptFramesMeaning(cfg, s.early, keep, left[i]);
    var k :| 0 <= k < |s.early| && s.early[k] == left[i];
  }

  lemma {:induction false} DisableEgressKeepsBudget(cfg: Config, s: Stores, side: int)
    requires WithinBudget(cfg, s)
    ensures WithinBudget(cfg, EgressDisabled(s, side)) && NoGrowth(cfg, s, EgressDisabled(s, side))
  {
    hide Bytes, EarlyBytes, RoutesCost, AllConsistent, Retained;
    RetainedBytes(s.tx, (x: Item) => x.dst != side);
    RetainedBytes(s.replay, (x: Item) => x.dst != side);
  }

  lemma {:induction false} ClearingKeepsBudget(cfg: Config, s: Stores, withReplay: bool)
    requires WithinBudget(cfg, s)
    ensures WithinBudget(cfg, s.(rx := []))
    ensures WithinBudget(cfg, s.(tx := [], replay := if withReplay then [] else s.replay))
  {
    hide EarlyBytes, RoutesCost, AllConsistent;
  }

  /** Exactly the released frames leave, and exactly what was queued for the disabled side. */
  lemma {:induction false} ReleasedMeaning(cfg: Config, s: Stores, side: int, ty: nat, numbers: set<nat>, f: Early,
      x: Item)
    ensures var t := Released(s, side, ty, numbers);
            && (f in t.early <==> f in s.early && !(f.side == side && f.ty == ty && f.number in numbers))
            && t == s.(early := t.early)
    ensures var t := EgressDisabled(s, side);
            && (x in t.tx <==> x in s.tx && x.dst != side)
            && (x in t.replay <==> x in s.replay && x.dst != side)
            && t == s.(tx := t.tx, replay := t.replay)
  {
    hide Retained, KeptFrames, Bytes;
    KeptFramesMeaning(cfg, s.early, Outside(side, ty, numbers), f);
    RetainedBytes(s.tx, (y: Item) => y.dst != side);
    RetainedBytes(s.replay, (y: Item) => y.dst != side);
  }

  lemma {:induction false} FewerThanMeaning(q: seq<Item>, max: nat) returns (n: nat)
    requires max >= 1
    ensures n <= |q| && FewerThan(q, max) == q[n..] && n == if |q| < max then 0 else |q| + 1 - max
    decreases |q|
  {
    if |q| < max {
      n := 0;
    } else {
      var m := FewerThanMeaning(q[1..], max);
      n := m + 1;
      assert q[1..][m..] == q[n..];
    }
  }

  /** The recent IDs after `n` passes of a loop that drops the oldest, if there is one. */
  function Dropped(q: seq<Item>, n: nat): seq<Item>
    decreases n
  {
    if n == 0 then q else Dropped(if |q| > 0 then q[1..] else q, n - 1)
  }

  lemma {:induction false} DroppedLength(q: seq<Item>, n: nat)
    ensures |Dropped(q, n)| == if n < |q| then |q| - n else 0
    decreases n
  {
    if n > 0 {
      DroppedLength(if |q| > 0 then q[1..] else q, n - 1);
    }
  }

  /**
    The loop that trims recent IDs before one is noted comes to an end, fewer than `max` being left after some
    number of passes, if and only if `max` is positive.
   */
  lemma {:induction false} TrimmingEndsExactly(q: seq<Item>, max: nat)
    ensures (exists n: nat :: |Dropped(q, n)| < max) <==> max >= 1
    ensures max >= 1 ==> exists n: nat :: Dropped(q, n) == FewerThan(q, max)
    decreases |q|
  {
    hide Dropped;
    if max >= 1 {
      DroppedLength(q, |q|);
      assert |Dropped(q, |q|)| < max;
      DroppedToFewer(q, max);
    }
  }

  lemma {:induction false} DroppedToFewer(q: seq<Item>, max: nat)
    requires max >= 1
    ensures exists n: nat :: Dropped(q, n) == FewerThan(q, max)
    decreases |q|
  {
    if |q| < max {
      assert Dropped(q, 0) == FewerThan(q, max);
    } else {
      DroppedToFewer(q[1..], max);
      var n: nat :| Dropped(q[1..], n) == FewerThan(q[1..], max);
      assert Dropped(q, n + 1) == FewerThan(q, max);
    }
  }

  lemma {:induction false} TakeKeepsBudget(cfg: Config, s: Stores, k: Kind)
    requires WithinBudget(cfg, s)
    ensures WithinBudget(cfg, match Popped(s, k) case Some(t) => t case None => s)
  {
    hide Held, AllConsistent, Popped;
    if Popped(s, k).Some? {
      PoppedShrinks(cfg, s, k);
    }
  }

  lemma {:induction false} ApplyKeepsBudget(cfg: Config, s: Stores, op: Op)
    requires ValidConfig(cfg) && WithinBudget(cfg, s)
    ensures WithinBudget(cfg, Apply(cfg, s, op))
  {
    hide WithinBudget, PushedRx, PushedTx, PushedReplay, PushedRecent, Buffered, LearnedStores, PrunedStores,
      RemovedSide, Popped, Released, EgressDisabled;
    match op
    case PushRx(v) => PushesKeepBudget(cfg, s, v);
    case PushTx(v) => PushesKeepBudget(cfg, s, v);
    case PushReplay(v) => PushesKeepBudget(cfg, s, v);
    case PushRecent(id) => RecentKeepsBudget(cfg, s, id);
    case Buffer(f) => BufferKeepsBudget(cfg, s, f);
    case Take(k) => TakeKeepsBudget(cfg, s, k);
    case Learn(side, a, now) => LearnKeepsBudget(cfg, s, side, a, now);
    case Prune(now) => PruneKeepsBudget(cfg, s, now);
    case Release(side, ty, numbers) => ReleaseKeepsBudget(cfg, s, side, ty, numbers);
    case DisableEgress(side) => DisableEgressKeepsBudget(cfg, s, side);
    case RemoveSide(side) => RemoveSideKeepsBudget(cfg, s, side);
    case ClearRx => ClearingKeepsBudget(cfg, s, false);
    case ClearTx(withReplay) => ClearingKeepsBudget(cfg, s, withReplay);
  }

  function Run(cfg: Config, s: Stores, ops: seq<Op>): Stores
    requires cfg.rxElems >= 1 && cfg.txElems >= 1 && cfg.replayElems >= 1 && cfg.recentElems >= 1
    requires cfg.maxRecentIds >= 1
    decreases |ops|
  {
    if ops == [] then s else Run(cfg, Apply(cfg, s, ops[0]), ops[1..])
  }

  /**
    Whatever is pushed, buffered, released, learned, pruned, taken, cleared, disabled or removed, the shared
    budget is never exceeded.
   */
  lemma {:induction false} BudgetIsNeverExceeded(cfg: Config, ops: seq<Op>)
    requires ValidConfig(cfg)
    ensures Used(cfg, Run(cfg, EMPTY, ops)) <= cfg.budget
  {
    assert WithinBudget(cfg, EMPTY);
    RunKeepsBudget(cfg, EMPTY, ops);
  }

  lemma {:induction false} RunKeepsBudget(cfg: Config, s: Stores, ops: seq<Op>)
    requires ValidConfig(cfg) && WithinBudget(cfg, s)
    ensures WithinBudget(cfg, Run(cfg, s, ops))
    decreases |ops|
  {
    hide WithinBudget, Apply;
    if ops != [] {
      ApplyKeepsBudget(cfg, s, ops[0]);
      RunKeepsBudget(cfg, Apply(cfg, s, ops[0]), ops[1..]);
    }
  }

  // -------------------------------------------------------------------------
  // What a push and a buffered frame end up as
  // -------------------------------------------------------------------------

  /** A push into a queue with enough bytes to spare gives up at most the last item, and only at the element cap. */
  lemma {:induction false} PushWithRoom(q: seq<Item>, v: Item, maxBytes: nat, maxElems: nat)
    requires maxElems >= 1 && Bytes(q) + v.cost <= maxBytes
    ensures var (r, outcome) := PushPrioritized(q, v, maxBytes, maxElems);
            && (outcome.Saturated? <==> |q| >= maxElems && q[|q| - 1].priority > v.priority)
            && (outcome.Pushed? ==> r == Inserted(if |q| < maxElems then q else q[..|q| - 1], v))
            && (!outcome.Pushed? ==> outcome.Saturated? && r == q)
  {
    hide Bytes, Inserted;
    assert q[..|q|] == q;
  }

  /**
    How a push of `v` may end, from the queue `q` that making room left (`ok` if there is room) to the queue `r`. It
    is refused for size exactly when the item does not fit beside the reservation. Otherwise the room made is
    enough for the queue's own byte limit too: the queue gives up at most its last item, only at its element
    cap, and the push is refused only if that item outranks the new one.
   */
  ghost predicate PushEnds(cfg: Config, v: Item, cap: nat, q: seq<Item>, ok: bool, r: seq<Item>, outcome: PushOutcome)
  {
    && (outcome.TooLarge? <==> v.cost + cfg.recentMax > cfg.budget)
    && (outcome.Saturated? <==> ok && |q| >= cap && q != [] && q[|q| - 1].priority > v.priority)
    && (outcome.Pushed? ==> r == Inserted(if |q| < cap || q == [] then q else q[..|q| - 1], v) && v in r)
    && (!outcome.Pushed? ==> r == q)
  }

  lemma {:induction false} PushIntoRoom(cfg: Config, s: Stores, v: Item, preferred: Kind, q: seq<Item>, cap: nat)
    requires ValidConfig(cfg) && cap >= 1
    requires MakeRoom(cfg, s, v.cost, preferred).1 ==> Bytes(q) + v.cost <= cfg.budget
    ensures var (_, ok) := MakeRoom(cfg, s, v.cost, preferred);
            var (r, outcome) := if ok then PushPrioritized(q, v, cfg.budget, cap) else (q, TooLarge);
            PushEnds(cfg, v, cap, q, ok, r, outcome)
  {
    hide MakeRoom, Bytes, PushPrioritized, Inserted, Used, Held;
    RoomExactly(cfg, s, v.cost, preferred);
    if MakeRoom(cfg, s, v.cost, preferred).1 {
      PushWithRoom(q, v, cfg.budget, cap);
      InsertedHas(if |q| < cap then q else q[..|q| - 1], v);
    }
  }

  /**
    The pushes into the three prioritized queues: each ends as described on its own queue, and leaves the five
    other stores as making room left them.
   */
  lemma {:induction false} PushOutcomeExactly(cfg: Config, s: Stores, v: Item)
    requires ValidConfig(cfg)
    ensures var (room, ok) := MakeRoom(cfg, s, v.cost, Rx);
            var (t, outcome) := PushedRx(cfg, s, v);
            PushEnds(cfg, v, cfg.rxElems, room.rx, ok, t.rx, outcome) && t == room.(rx := t.rx)
    ensures var (room, ok) := MakeRoom(cfg, s, v.cost, Tx);
            var (t, outcome) := PushedTx(cfg, s, v);
            PushEnds(cfg, v, cfg.txElems, room.tx, ok, t.tx, outcome) && t == room.(tx := t.tx)
    ensures var (room, ok) := MakeRoom(cfg, s, v.cost, Replay);
            var (t, outcome) := PushedReplay(cfg, s, v);
            PushEnds(cfg, v, cfg.replayElems, room.replay, ok, t.replay, outcome) && t == room.(replay := t.replay)
  {
    hide MakeRoom, Bytes, EarlyBytes, RoutesCost, PushPrioritized, PushEnds, AllConsistent;
    RoomExactly(cfg, s, v.cost, Rx);
    RoomExactly(cfg, s, v.cost, Tx);
    RoomExactly(cfg, s, v.cost, Replay);
    PushIntoRoom(cfg, s, v, Rx, MakeRoom(cfg, s, v.cost, Rx).0.rx, cfg.rxElems);
    PushIntoRoom(cfg, s, v, Tx, MakeRoom(cfg, s, v.cost, Tx).0.tx, cfg.txElems);
    PushIntoRoom(cfg, s, v, Replay, MakeRoom(cfg, s, v.cost, Replay).0.replay, cfg.replayElems);
  }

  lemma {:induction false} EvictedKeepsRecent(cfg: Config, s: Stores, preferred: Kind)
    requires Victim(cfg, s).Some? || preferred != Recent
    ensures Evicted(cfg, s, preferred).Some? ==> Evicted(cfg, s, preferred).value.recent == s.recent
  {
    hide Victim, Held;
    VictimIsLargest(cfg, s);
    VictimHolds(cfg, s);
  }

  lemma {:induction false} VictimHolds(cfg: Config, s: Stores)
    ensures Victim(cfg, s).Some? ==> Victim(cfg, s).value != Recent && Popped(s, Victim(cfg, s).value).Some?
    ensures Victim(cfg, s).None? ==> Used(cfg, s) == cfg.recentMax
  {
    VictimIsLargest(cfg, s);
    if Victim(cfg, s).Some? {
      HoldingIsNonempty(cfg, s, Victim(cfg, s).value);
    } else {
      forall k: Kind ensures Held(cfg, s, k) == 0 { assert Place(k) < 6; }
    }
    hide Victim;
  }

  /** Recent IDs have their own reservation: making room never takes them. */
  lemma {:induction false} RoomKeepsRecent(cfg: Config, s: Stores, cost: nat, preferred: Kind)
    requires preferred != Recent || cost + cfg.recentMax <= cfg.budget
    ensures Evicting(cfg, s, cost, preferred).0.recent == s.recent
    decreases Count(s)
  {
    hide Victim, Held, Evicted, Count, Used;
    if Used(cfg, s) + cost > cfg.budget && Evicted(cfg, s, preferred).Some? {
      VictimHolds(cfg, s);
      EvictedKeepsRecent(cfg, s, preferred);
      EvictedShrinks(cfg, s, preferred);
      RoomKeepsRecent(cfg, Evicted(cfg, s, preferred).value, cost, preferred);
    }
  }

  /** Noting a recent ID always succeeds; the newest old IDs stay before it, and no more than configured in all. */
  lemma {:induction false} PushedRecentMeaning(cfg: Config, s: Stores, id: nat) returns (n: nat)
    requires ValidConfig(cfg) && |s.recent| <= cfg.recentElems
    ensures var (t, outcome) := PushedRecent(cfg, s, id);
            && outcome.Pushed? && n <= |s.recent| && t.recent == s.recent[n..] + [RecentItem(cfg, id)]
            && |t.recent| <= cfg.maxRecentIds
  {
    hide Evicting, FewerThan, PushFifo, Bytes, Used, Held;
    var fewer := FewerThan(s.recent, cfg.maxRecentIds);
    var k := FewerThanMeaning(s.recent, cfg.maxRecentIds);
    RoomExactly(cfg, s.(recent := fewer), 0, Recent);
    RoomKeepsRecent(cfg, s.(recent := fewer), 0, Recent);
    var m := FifoPushMeaning(fewer, RecentItem(cfg, id), cfg.recentMax, cfg.recentElems);
    n := k + m;
    assert s.recent[k..][m..] == s.recent[n..];
  }

  ghost predicate Ordered(early: seq<Early>)
  {
    forall i, j :: 0 <= i < j < |early| ==> Before(early[i], early[j])
  }

  /** Such a list is sorted by side, within a side by type, and within a stream by number, each number once. */
  lemma {:induction false} OrderedExactly(early: seq<Early>)
    ensures Ordered(early) <==>
              forall i, j :: 0 <= i < j < |early| ==>
                && early[i].side <= early[j].side
                && (early[i].side == early[j].side ==> early[i].ty <= early[j].ty)
                && (early[i].side == early[j].side && early[i].ty == early[j].ty ==> early[i].number < early[j].number)
  {
  }

  /** Ordered by stream and number, each frame once, and no stream longer than the limit. */
  ghost predicate WellBuffered(cfg: Config, early: seq<Early>)
  {
    Ordered(early) && forall f :: StreamLength(early, f) <= cfg.maxPending
  }

  lemma {:induction false} WithEarlyElements(early: seq<Early>, f: Early, g: Early)
    ensures g in WithEarly(early, f) <==> g == f || g in early
    ensures StreamLength(WithEarly(early, f), g) == StreamLength(early, g) + if SameStream(f, g) then 1 else 0
  {
    if early == [] || Before(f, early[0]) {
      assert ([f] + early)[1..] == early;
    } else {
      WithEarlyElements(early[1..], f, g);
      var rest := WithEarly(early[1..], f);
      assert ([early[0]] + rest)[1..] == rest;
      assert early == [early[0]] + early[1..];
    }
  }

  lemma {:induction false} WithEarlyOrdered(early: seq<Early>, f: Early)
    requires Ordered(early) && !Waiting(early, f)
    ensures Ordered(WithEarly(early, f))
  {
    if early == [] {
    } else if Before(f, early[0]) {
      var r := [f] + early;
      forall i, j | 0 <= i < j < |r| ensures Before(r[i], r[j]) {
        assert j == 1 || Before(early[0], early[j - 1]);
      }
    } else {
      NotWaitingTail(early, f);
      WithEarlyOrdered(early[1..], f);
      var rest := WithEarly(early[1..], f);
      var r := [early[0]] + rest;
      forall i, j | 0 <= i < j < |r| ensures Before(r[i], r[j]) {
        if i == 0 {
          WithEarlyElements(early[1..], f, rest[j - 1]);
        } else {
          assert Before(rest[i - 1], rest[j - 1]);
        }
      }
    }
  }

  lemma {:induction false} NotWaitingTail(early: seq<Early>, f: Early)
    requires early != [] && !Waiting(early, f)
    ensures !Waiting(early[1..], f) && (Before(f, early[0]) || Before(early[0], f))
  {
    assert !(SameStream(early[0], f) && early[0].number == f.number);
    forall i | 0 <= i < |early[1..]| ensures !(SameStream(early[1..][i], f) && early[1..][i].number == f.number) {
      assert early[1..][i] == early[i + 1];
    }
  }

  lemma {:induction false} WithoutLater<T>(s: seq<T>, k: nat)
    requires k + 1 < |s|
    ensures [s[0]] + (s[1..][..k] + s[1..][k + 1..]) == s[..k + 1] + s[k + 2..]
  {
  }

  /** A full stream gives up exactly its lowest number: the first of its frames in the list. */
  lemma {:induction false} WithoutFirstMeaning(early: seq<Early>, f: Early) returns (i: nat)
    requires StreamLength(early, f) > 0
    ensures i < |early| && SameStream(early[i], f) && WithoutFirst(early, f) == early[..i] + early[i + 1..]
    ensures forall j :: 0 <= j < i ==> !SameStream(early[j], f)
  {
    hide SameStream;
    if SameStream(early[0], f) {
      i := 0;
      assert early[..0] + early[1..] == early[1..];
    } else {
      var k := WithoutFirstMeaning(early[1..], f);
      i := k + 1;
      WithoutLater(early, k);
      forall j | 0 <= j < i ensures !SameStream(early[j], f) {
        if j > 0 { assert early[j] == early[1..][j - 1]; }
      }
    }
  }

  lemma {:induction false} WithoutFirstLength(early: seq<Early>, f: Early, g: Early)
    requires StreamLength(early, f) > 0
    ensures StreamLength(WithoutFirst(early, f), g) == StreamLength(early, g) - if SameStream(f, g) then 1 else 0
  {
    if !SameStream(early[0], f) {
      WithoutFirstLength(early[1..], f, g);
      var rest := WithoutFirst(early[1..], f);
      assert ([early[0]] + rest)[1..] == rest;
    }
  }

  lemma {:induction false} StreamLengthTail(early: seq<Early>, n: nat, g: Early)
    requires n <= |early|
    ensures StreamLength(early[n..], g) <= StreamLength(early, g)
    decreases n
  {
    if n == 0 {
      assert early[0..] == early;
    } else {
      StreamLengthTail(early[1..], n - 1, g);
      assert early[1..][n - 1..] == early[n..];
    }
  }

  /** Making room takes waiting frames from the front only. */
  lemma {:induction false} EvictingKeepsSuffix(cfg: Config, s: Stores, cost: nat, preferred: Kind) returns (n: nat)
    ensures n <= |s.early| && Evicting(cfg, s, cost, preferred).0.early == s.early[n..]
    decreases Count(s)
  {
    n := 0;
    assert s.early[0..] == s.early;
    if Used(cfg, s) + cost > cfg.budget && Evicted(cfg, s, preferred).Some? {
      var t := Evicted(cfg, s, preferred).value;
      EvictedShrinks(cfg, s, preferred);
      EvictedEarly(cfg, s, preferred);
      var m := EvictingKeepsSuffix(cfg, t, cost, preferred);
      n := if t.early == s.early then m else m + 1;
      hide *;
      assert t.early == s.early || s.early[1..][m..] == s.early[m + 1..];
    }
  }

  lemma {:induction false} EvictedEarly(cfg: Config, s: Stores, preferred: Kind)
    ensures var t := Evicted(cfg, s, preferred);
            t.Some? ==> t.value.early == s.early || (s.early != [] && t.value.early == s.early[1..])
  {
    hide Victim;
  }

  lemma {:induction false} SuffixWellBuffered(cfg: Config, early: seq<Early>, n: nat)
    requires n <= |early| && WellBuffered(cfg, early)
    ensures WellBuffered(cfg, early[n..])
    ensures forall f :: !Waiting(early, f) ==> !Waiting(early[n..], f)
  {
    forall f ensures StreamLength(early[n..], f) <= cfg.maxPending {
      StreamLengthTail(early, n, f);
    }
    forall f | !Waiting(early, f) ensures !Waiting(early[n..], f) {
      forall i | 0 <= i < |early[n..]| ensures !(SameStream(early[n..][i], f) && early[n..][i].number == f.number) {
        assert early[n..][i] == early[i + n];
      }
    }
  }

  lemma {:induction false} WithoutFirstWellBuffered(cfg: Config, early: seq<Early>, f: Early)
    requires WellBuffered(cfg, early) && !Waiting(early, f) && StreamLength(early, f) > 0
    ensures WellBuffered(cfg, WithoutFirst(early, f)) && !Waiting(WithoutFirst(early, f), f)
    ensures StreamLength(WithoutFirst(early, f), f) < cfg.maxPending
  {
    hide StreamLength, WithoutFirst, SameStream, Before;
    var r := WithoutFirst(early, f);
    var i := WithoutFirstMeaning(early, f);
    forall g ensures StreamLength(r, g) <= cfg.maxPending {
      WithoutFirstLength(early, f, g);
    }
    WithoutFirstLength(early, f, f);
    SameAsItself(f);
    forall j | 0 <= j < |r| ensures r[j] == early[if j < i then j else j + 1] {}
  }

  lemma {:induction false} SameAsItself(f: Early)
    ensures SameStream(f, f)
  {
  }

  lemma {:induction false} WithEarlyWellBuffered(cfg: Config, early: seq<Early>, f: Early)
    requires WellBuffered(cfg, early) && !Waiting(early, f) && StreamLength(early, f) < cfg.maxPending
    ensures WellBuffered(cfg, WithEarly(early, f)) && Waiting(WithEarly(early, f), f)
  {
    var r := WithEarly(early, f);
    WithEarlyOrdered(early, f);
    forall g ensures StreamLength(r, g) <= cfg.maxPending {
      WithEarlyElements(early, f, g);
      if SameStream(f, g) {
        SameStreamLength(early, f, g);
      }
    }
    WithEarlyElements(early, f, f);
    assert f in r;
  }

  lemma {:induction false} SameStreamLength(early: seq<Early>, f: Early, g: Early)
    requires SameStream(f, g)
    ensures StreamLength(early, f) == StreamLength(early, g)
  {
    if early != [] {
      SameStreamLength(early[1..], f, g);
    }
  }

  lemma {:induction false} WithFrameWellBuffered(cfg: Config, early: seq<Early>, f: Early)
    requires cfg.maxPending >= 1 && WellBuffered(cfg, early) && !Waiting(early, f)
    ensures WellBuffered(cfg, WithFrame(cfg, early, f)) && Waiting(WithFrame(cfg, early, f), f)
  {
    hide WellBuffered, Waiting, StreamLength, WithoutFirst, WithEarly;
    if StreamLength(early, f) >= cfg.maxPending {
      WithoutFirstWellBuffered(cfg, early, f);
      WithEarlyWellBuffered(cfg, WithoutFirst(early, f), f);
    } else {
      WithEarlyWellBuffered(cfg, early, f);
    }
  }

  /**
    A frame is buffered exactly when it already waits or fits beside the reservation. It then waits, every
    stream stays within its limit, and a full stream has paid with its lowest number.
   */
  lemma {:induction false} BufferedMeaning(cfg: Config, s: Stores, f: Early)
    requires ValidConfig(cfg) && WellBuffered(cfg, s.early)
    ensures var (t, ok) := Buffered(cfg, s, f);
            && (ok <==> Waiting(s.early, f) || cfg.handleSize + f.length + cfg.recentMax <= cfg.budget)
            && (ok ==> Waiting(t.early, f))
            && WellBuffered(cfg, t.early)
  {
    hide Evicting, WellBuffered, Waiting, WithFrame, Held, Used, AllConsistent;
    if !Waiting(s.early, f) {
      var cost := cfg.handleSize + f.length;
      RoomExactly(cfg, s, cost, EarlyFrames);
      var (t, ok) := MakeRoom(cfg, s, cost, EarlyFrames);
      MadeRoomWellBuffered(cfg, s, cost, f);
      if ok {
        WithFrameWellBuffered(cfg, t.early, f);
      }
    }
  }

  lemma {:induction false} MadeRoomWellBuffered(cfg: Config, s: Stores, cost: nat, f: Early)
    requires WellBuffered(cfg, s.early) && !Waiting(s.early, f)
    ensures var t := MakeRoom(cfg, s, cost, EarlyFrames).0;
            WellBuffered(cfg, t.early) && !Waiting(t.early, f)
  {
    hide Evicting, WellBuffered, Waiting, Used;
    var n := EvictingKeepsSuffix(cfg, s, cost, EarlyFrames);
    SuffixWellBuffered(cfg, s.early, n);
  }

  // -------------------------------------------------------------------------
  // Exactly what is buffered, learned and cleared
  // -------------------------------------------------------------------------

  /** `g` is the frame of its stream with the lowest number. */
  ghost predicate Lowest(early: seq<Early>, f: Early, g: Early)
  {
    g in early && SameStream(g, f) && forall h :: h in early && SameStream(h, f) ==> g.number <= h.number
  }

  lemma {:induction false} FirstIsLowest(early: seq<Early>, f: Early, i: nat, g: Early)
    requires Ordered(early) && i < |early| && SameStream(early[i], f)
    requires forall j :: 0 <= j < i ==> !SameStream(early[j], f)
    ensures Lowest(early, f, g) <==> g == early[i]
    ensures g in early[..i] + early[i + 1..] <==> g in early && g != early[i]
  {
    hide SameStream;
    SameNumbers(early, f);
    forall h | h in early && SameStream(h, f) ensures early[i].number <= h.number && (h != early[i] ==>
        early[i].number < h.number) {
      var j :| 0 <= j < |early| && early[j] == h;
    }
    assert early == early[..i] + [early[i]] + early[i + 1..];
    assert forall j :: 0 <= j < |early| && early[j] == early[i] ==> j == i;
  }

  lemma {:induction false} SameNumbers(early: seq<Early>, f: Early)
    requires Ordered(early)
    ensures forall i, j :: 0 <= i < j < |early| ==> early[i] != early[j]
    ensures forall i, j :: 0 <= i < j < |early| && SameStream(early[i], f) && SameStream(early[j], f) ==>
              early[i].number < early[j].number
  {
  }

  lemma {:induction false} WithFrameAt(cfg: Config, early: seq<Early>, f: Early, g: Early)
    requires Ordered(early) && cfg.maxPending >= 1
    ensures g in WithFrame(cfg, early, f) <==>
              g == f || (g in early && !(StreamLength(early, f) >= cfg.maxPending && Lowest(early, f, g)))
  {
    hide StreamLength, WithEarly, WithoutFirst, SameStream, Ordered, Lowest;
    if StreamLength(early, f) >= cfg.maxPending {
      var i := WithoutFirstMeaning(early, f);
      FirstIsLowest(early, f, i, g);
      WithEarlyElements(WithoutFirst(early, f), f, g);
    } else {
      WithEarlyElements(early, f, g);
    }
  }

  /**
    Buffering, frame by frame. A frame that waits already changes nothing. Otherwise room is made; and if there is
    room, exactly the frame is added, and exactly the lowest number of its stream is given up, if the stream is full.
   */
  lemma {:induction false} BufferedExactly(cfg: Config, s: Stores, f: Early, g: Early)
    requires ValidConfig(cfg) && WellBuffered(cfg, s.early)
    ensures var (room, found) := MakeRoom(cfg, s, cfg.handleSize + f.length, EarlyFrames);
            var (t, ok) := Buffered(cfg, s, f);
            && (Waiting(s.early, f) ==> ok && t == s)
            && (!Waiting(s.early, f) && !found ==> !ok && t == room)
            && (!Waiting(s.early, f) && found ==>
                  && ok && t == room.(early := t.early)
                  && (g in t.early <==>
                      g == f || (g in room.early && !(StreamLength(room.early, f) >= cfg.maxPending
                                                      && Lowest(room.early, f, g)))))
  {
    hide MakeRoom, Waiting, WithFrame, StreamLength, Lowest, Ordered;
    if !Waiting(s.early, f) {
      MadeRoomWellBuffered(cfg, s, cfg.handleSize + f.length, f);
      WithFrameAt(cfg, MakeRoom(cfg, s, cfg.handleSize + f.length, EarlyFrames).0.early, f, g);
    }
  }

  /** Clearing empties its queues, and nothing else; taking from an empty store changes nothing. */
  lemma {:induction false} ClearedExactly(cfg: Config, s: Stores, k: Kind)
    requires ValidConfig(cfg)
    ensures Apply(cfg, s, ClearRx) == Stores([], s.tx, s.replay, s.recent, s.early, s.routes)
    ensures Apply(cfg, s, ClearTx(true)) == Stores(s.rx, [], [], s.recent, s.early, s.routes)
    ensures Apply(cfg, s, ClearTx(false)) == Stores(s.rx, [], s.replay, s.recent, s.early, s.routes)
    ensures Popped(s, k).Some? ==> Apply(cfg, s, Take(k)) == Popped(s, k).value
    ensures Popped(s, k).None? ==> Apply(cfg, s, Take(k)) == s
  {
    hide Popped;
  }

  lemma {:induction false} PrunedAlive(routes: seq<Route>, now: nat, ttl: nat, r: Route, x: Announcer)
    requires r in Pruned(routes, now, ttl) && x in r.announcers
    ensures now <= x.lastSeen + ttl
  {
    hide Alive;
    if |routes| > 0 {
      var alive := Alive(routes[0].announcers, now, ttl);
      if alive != [] && r == Recomputed(routes[0].side, alive) {
        AliveMeaning(routes[0].announcers, now, ttl, x);
      } else {
        PrunedAlive(routes[1..], now, ttl, r, x);
      }
    }
  }

  lemma {:induction false} LearnedSides(routes: seq<Route>, side: nat, a: Announcer, r: Route)
    requires r in Learned(routes, side, a)
    ensures r.side == side || r in routes
  {
    hide Recomputed, WithAnnouncer;
    RecomputedSide(side, [a]);
    if |routes| > 0 {
      assert routes == [routes[0]] + routes[1..];
      RecomputedSide(side, WithAnnouncer(routes[0].announcers, a));
      if side > routes[0].side && r != routes[0] {
        LearnedSides(routes[1..], side, a, r);
      }
    }
  }

  lemma {:induction false} AfterFirst(routes: seq<Route>, r: Route)
    requires BySide(routes) && |routes| > 0 && r in routes[1..]
    ensures routes[0].side < r.side
  {
    var k :| 0 <= k < |routes[1..]| && routes[1..][k] == r;
    assert routes[k + 1] == r;
  }

  lemma {:induction false} LearnedBySide(routes: seq<Route>, side: nat, a: Announcer)
    requires BySide(routes)
    ensures BySide(Learned(routes, side, a))
  {
    hide Recomputed, WithAnnouncer;
    RecomputedSide(side, [a]);
    if |routes| > 0 {
      RecomputedSide(side, WithAnnouncer(routes[0].announcers, a));
      if side > routes[0].side {
        LearnedBySide(routes[1..], side, a);
        var rest := Learned(routes[1..], side, a);
        forall i | 0 <= i < |rest| ensures routes[0].side < rest[i].side {
          LearnedSides(routes[1..], side, a, rest[i]);
          if rest[i].side != side {
            AfterFirst(routes, rest[i]);
          }
        }
      }
    }
  }

  /**
    Learning a statement leaves the five other stores alone and nobody expired. If the routes fit with it, every side
    has afterwards exactly its announcers that are still alive, the new statement in the place of the old one.
   */
  lemma {:induction false} LearnedExactly(cfg: Config, s: Stores, side: nat, a: Announcer, now: nat, other: nat,
      r: Route, x: Announcer)
    requires BySide(s.routes)
    ensures var t := LearnedStores(cfg, s, side, a, now);
            var all := if other == side then WithAnnouncer(AnnouncersAt(s.routes, side), a)
                       else AnnouncersAt(s.routes, other);
            && t == s.(routes := t.routes)
            && (r in t.routes && x in r.announcers ==> now <= x.lastSeen + cfg.ttl)
            && (Others(cfg, s) + RoutesCost(cfg.sizes, Learned(s.routes, side, a)) <= cfg.budget ==>
                  AnnouncersAt(t.routes, other) == Alive(all, now, cfg.ttl))
  {
    hide Others, RoutesCost, Alive, Learned, WithAnnouncer, Recomputed, BySide, Lookup, Pruned;
    var routes := Learned(s.routes, side, a);
    var t := LearnedStores(cfg, s, side, a, now);
    LearnedBySide(s.routes, side, a);
    LearnedMeaning(s.routes, side, a, other);
    var alive := match Lookup(routes, other) case None => [] case Some(q) => Alive(q.announcers, now, cfg.ttl);
    PrunedMeaning(routes, now, cfg.ttl, other);
    RecomputedKeeps(other, alive);
    RecomputedKeeps(side, WithAnnouncer(AnnouncersAt(s.routes, side), a));
    NobodyAlive(now, cfg.ttl);
    if r in t.routes && x in r.announcers {
      PrunedAlive(Fitted(cfg.sizes, routes, Others(cfg, s), cfg.budget), now, cfg.ttl, r, x);
    }
  }

  lemma {:induction false} RecomputedKeeps(side: nat, announcers: seq<Announcer>)
    ensures Recomputed(side, announcers).announcers == announcers
  {
  }

  lemma {:induction false} NobodyAlive(now: nat, ttl: nat)
    ensures Alive([], now, ttl) == []
  {
  }
}
