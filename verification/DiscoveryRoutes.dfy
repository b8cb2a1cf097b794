/**
  Routes learned from discovery packets: what each side's announcers said, the aggregate kept per side,
  and the bytes all of it is charged for.
 */
module DiscoveryRoutes {
  import opened Basics
  import opened Wrappers
  import opened LittleEndian
  import opened CanonicalLists
  import opened Topology

  /** In-memory sizes that enter the accounting. */
  datatype Sizes = Sizes(endpoint: nat, announcer: nat, route: nat)

  datatype Announcer = Announcer(
    sender: Text, endpoints: seq<nat>, sources: seq<Text>, boards: seq<Board>, lastSeen: nat)

  datatype Route = Route(
    side: nat, endpoints: seq<nat>, sources: seq<Text>, lastSeen: nat, announcers: seq<Announcer>)

  // -------------------------------------------------------------------------
  // Byte accounting
  // -------------------------------------------------------------------------

  function TextSize(t: Text): nat { |t| }

  function One(e: nat): nat { 1 }

  function SumBy<T>(w: T -> nat, xs: seq<T>): nat
  {
    if xs == [] then 0 else w(xs[0]) + SumBy(w, xs[1..])
  }

  function BoardCost(sz: Sizes, b: Board): nat
  {
    |b.sender| + |b.endpoints| * sz.endpoint + SumBy(TextSize, b.sources) + SumBy(TextSize, b.connections)
  }

  function BoardsCost(sz: Sizes, boards: seq<Board>): nat
  {
    if boards == [] then 0 else BoardCost(sz, boards[0]) + BoardsCost(sz, boards[1..])
  }

  function AnnouncerCost(sz: Sizes, a: Announcer): nat
  {
    |a.sender| + |a.endpoints| * sz.endpoint + SumBy(TextSize, a.sources) + BoardsCost(sz, a.boards) + sz.announcer
  }

  function AnnouncersCost(sz: Sizes, announcers: seq<Announcer>): nat
  {
    if announcers == [] then 0 else AnnouncerCost(sz, announcers[0]) + AnnouncersCost(sz, announcers[1..])
  }

  function RouteCost(sz: Sizes, r: Route): nat
  {
    sz.route + |r.endpoints| * sz.endpoint + SumBy(TextSize, r.sources) + AnnouncersCost(sz, r.announcers)
  }

  function RoutesCost(sz: Sizes, routes: seq<Route>): nat
  {
    if routes == [] then 0 else RouteCost(sz, routes[0]) + RoutesCost(sz, routes[1..])
  }

  lemma {:induction false} RoutesCostConcat(sz: Sizes, a: seq<Route>, b: seq<Route>)
    ensures RoutesCost(sz, a + b) == RoutesCost(sz, a) + RoutesCost(sz, b)
  {
    if a == [] {
      assert a + b == b;
    } else {
      RoutesCostConcat(sz, a[1..], b);
      assert (a + b)[1..] == a[1..] + b;
    }
  }

  lemma {:induction false} OneMoreText(ts: seq<Text>, t: Text)
    ensures SumBy(TextSize, ts + [t]) == SumBy(TextSize, ts) + |t|
  {
    if ts == [] {
      assert [t][1..] == [] && ts + [t] == [t];
    } else {
      assert (ts + [t])[1..] == ts[1..] + [t];
      OneMoreText(ts[1..], t);
    }
  }

  lemma {:induction false} OneMoreBoard(sz: Sizes, boards: seq<Board>, b: Board)
    ensures BoardsCost(sz, boards + [b]) == BoardsCost(sz, boards) + BoardCost(sz, b)
  {
    hide BoardCost;
    if boards == [] {
      assert [b][1..] == [] && boards + [b] == [b];
    } else {
      assert (boards + [b])[1..] == boards[1..] + [b];
      OneMoreBoard(sz, boards[1..], b);
    }
  }

  lemma {:induction false} OneMoreAnnouncer(sz: Sizes, announcers: seq<Announcer>, a: Announcer)
    ensures AnnouncersCost(sz, announcers + [a]) == AnnouncersCost(sz, announcers) + AnnouncerCost(sz, a)
  {
    hide AnnouncerCost;
    if announcers == [] {
      assert [a][1..] == [] && announcers + [a] == [a];
    } else {
      assert (announcers + [a])[1..] == announcers[1..] + [a];
      OneMoreAnnouncer(sz, announcers[1..], a);
    }
  }

  /**
    What a route costs, entry by entry: its own size; for every endpoint the size of one, for every source the
    bytes of its name; and for every announcer its size, the bytes of its names, its endpoints and its boards.
   */
  lemma {:induction false} RouteCostAddsUp(sz: Sizes, r: Route, a: Announcer, b: Board, e: nat, t: Text)
    ensures RouteCost(sz, Route(r.side, [], [], r.lastSeen, [])) == sz.route
    ensures RouteCost(sz, r.(endpoints := r.endpoints + [e])) == RouteCost(sz, r) + sz.endpoint
    ensures RouteCost(sz, r.(sources := r.sources + [t])) == RouteCost(sz, r) + |t|
    ensures RouteCost(sz, r.(announcers := r.announcers + [a])) == RouteCost(sz, r) + AnnouncerCost(sz, a)
    ensures AnnouncerCost(sz, Announcer(t, [], [], [], a.lastSeen)) == sz.announcer + |t|
    ensures AnnouncerCost(sz, a.(endpoints := a.endpoints + [e])) == AnnouncerCost(sz, a) + sz.endpoint
    ensures AnnouncerCost(sz, a.(sources := a.sources + [t])) == AnnouncerCost(sz, a) + |t|
    ensures AnnouncerCost(sz, a.(boards := a.boards + [b])) == AnnouncerCost(sz, a) + BoardCost(sz, b)
    ensures BoardCost(sz, Board(t, [], [], [])) == |t|
    ensures BoardCost(sz, b.(endpoints := b.endpoints + [e])) == BoardCost(sz, b) + sz.endpoint
    ensures BoardCost(sz, b.(sources := b.sources + [t])) == BoardCost(sz, b) + |t|
    ensures BoardCost(sz, b.(connections := b.connections + [t])) == BoardCost(sz, b) + |t|
  {
    RouteEntries(sz, r, a, e, t);
    AnnouncerEntries(sz, a, b, e, t);
    BoardEntries(sz, b, e, t);
  }

  lemma {:induction false} RouteEntries(sz: Sizes, r: Route, a: Announcer, e: nat, t: Text)
    ensures RouteCost(sz, Route(r.side, [], [], r.lastSeen, [])) == sz.route
    ensures RouteCost(sz, r.(endpoints := r.endpoints + [e])) == RouteCost(sz, r) + sz.endpoint
    ensures RouteCost(sz, r.(sources := r.sources + [t])) == RouteCost(sz, r) + |t|
    ensures RouteCost(sz, r.(announcers := r.announcers + [a])) == RouteCost(sz, r) + AnnouncerCost(sz, a)
  {
    hide AnnouncerCost;
    assert (|r.endpoints| + 1) * sz.endpoint == |r.endpoints| * sz.endpoint + sz.endpoint;
    OneMoreText(r.sources, t);
    OneMoreAnnouncer(sz, r.announcers, a);
  }

  lemma {:induction false} AnnouncerEntries(sz: Sizes, a: Announcer, b: Board, e: nat, t: Text)
    ensures AnnouncerCost(sz, Announcer(t, [], [], [], a.lastSeen)) == sz.announcer + |t|
    ensures AnnouncerCost(sz, a.(endpoints := a.endpoints + [e])) == AnnouncerCost(sz, a) + sz.endpoint
    ensures AnnouncerCost(sz, a.(sources := a.sources + [t])) == AnnouncerCost(sz, a) + |t|
    ensures AnnouncerCost(sz, a.(boards := a.boards + [b])) == AnnouncerCost(sz, a) + BoardCost(sz, b)
  {
    hide BoardCost;
    assert (|a.endpoints| + 1) * sz.endpoint == |a.endpoints| * sz.endpoint + sz.endpoint;
    OneMoreText(a.sources, t);
    OneMoreBoard(sz, a.boards, b);
  }

  lemma {:induction false} BoardEntries(sz: Sizes, b: Board, e: nat, t: Text)
    ensures BoardCost(sz, Board(t, [], [], [])) == |t|
    ensures BoardCost(sz, b.(endpoints := b.endpoints + [e])) == BoardCost(sz, b) + sz.endpoint
    ensures BoardCost(sz, b.(sources := b.sources + [t])) == BoardCost(sz, b) + |t|
    ensures BoardCost(sz, b.(connections := b.connections + [t])) == BoardCost(sz, b) + |t|
  {
    assert (|b.endpoints| + 1) * sz.endpoint == |b.endpoints| * sz.endpoint + sz.endpoint;
    OneMoreText(b.sources, t);
    OneMoreText(b.connections, t);
  }

  // -------------------------------------------------------------------------
  // The per-side aggregate
  // -------------------------------------------------------------------------

  function EndpointsOf(announcers: seq<Announcer>): seq<nat>
  {
    if announcers == [] then [] else announcers[0].endpoints + EndpointsOf(announcers[1..])
  }

  function SourcesOf(announcers: seq<Announcer>): seq<Text>
  {
    if announcers == [] then [] else announcers[0].sources + SourcesOf(announcers[1..])
  }

  function LatestOf(announcers: seq<Announcer>): nat
  {
    if announcers == [] then 0
    else
      var rest := LatestOf(announcers[1..]);
      if announcers[0].lastSeen >= rest then announcers[0].lastSeen else rest
  }

  function Recomputed(side: nat, announcers: seq<Announcer>): Route
  {
    Route(side, SortNats(EndpointsOf(announcers)), SortTexts(SourcesOf(announcers)), LatestOf(announcers), announcers)
  }

  /** The aggregate is what its announcers say. */
  ghost predicate Consistent(r: Route)
  {
    r == Recomputed(r.side, r.announcers)
  }

  ghost predicate AllConsistent(routes: seq<Route>)
  {
    forall i :: 0 <= i < |routes| ==> Consistent(routes[i])
  }

  // -------------------------------------------------------------------------
  // Expiry
  // -------------------------------------------------------------------------

  predicate Expired(a: Announcer, now: nat, ttl: nat)
  {
    now > a.lastSeen && now - a.lastSeen > ttl
  }

  function Alive(announcers: seq<Announcer>, now: nat, ttl: nat): seq<Announcer>
  {
    if announcers == [] then []
    else (if Expired(announcers[0], now, ttl) then [] else [announcers[0]]) + Alive(announcers[1..], now, ttl)
  }

  function Pruned(routes: seq<Route>, now: nat, ttl: nat): seq<Route>
  {
    if routes == [] then []
    else
      var alive := Alive(routes[0].announcers, now, ttl);
      (if alive == [] then [] else [Recomputed(routes[0].side, alive)]) + Pruned(routes[1..], now, ttl)
  }

  /** An ascending list weighs no more than one that contains it. */
  lemma {:induction false} SubsetWeighsLess<T(!new)>(less: (T, T) -> bool, w: T -> nat, xs: seq<T>, ys: seq<T>)
    requires StrictTotal(less) && Ascending(less, xs) && Ascending(less, ys)
    requires forall x :: x in xs ==> x in ys
    ensures SumBy(w, xs) <= SumBy(w, ys)
    decreases |ys|
  {
    if xs != [] {
      assert xs[0] in ys;
      forall x | x in xs[1..] ensures x in ys[1..] {
        TailElement(less, xs, x);
        TailElement(less, ys, x);
        HeadIsLeast(less, xs, ys);
      }
      if xs[0] == ys[0] {
        SubsetWeighsLess(less, w, xs[1..], ys[1..]);
      } else {
        forall x | x in xs ensures x in ys[1..] {
          TailElement(less, ys, x);
          HeadIsLeast(less, xs, ys);
        }
        SubsetWeighsLess(less, w, xs, ys[1..]);
      }
    }
  }

  lemma {:induction false} HeadIsLeast<T(!new)>(less: (T, T) -> bool, xs: seq<T>, ys: seq<T>)
    requires StrictTotal(less) && Ascending(less, xs) && Ascending(less, ys) && xs != [] && ys != []
    requires xs[0] in ys
    ensures xs[0] == ys[0] || ys[0] !in xs
    ensures ys[0] !in xs[1..]
  {
    var i :| 0 <= i < |ys| && ys[i] == xs[0];
    forall k | 0 <= k < |xs| && xs[k] == ys[0] ensures k == 0 {
    }
  }

  lemma {:induction false} SumOfOnes(xs: seq<nat>)
    ensures SumBy(One, xs) == |xs|
  {
    if xs != [] {
      SumOfOnes(xs[1..]);
    }
  }

  lemma {:induction false} AliveElements(announcers: seq<Announcer>, now: nat, ttl: nat, e: nat, t: Text)
    ensures e in EndpointsOf(Alive(announcers, now, ttl)) ==> e in EndpointsOf(announcers)
    ensures t in SourcesOf(Alive(announcers, now, ttl)) ==> t in SourcesOf(announcers)
  {
    if announcers != [] {
      AliveElements(announcers[1..], now, ttl, e, t);
      var alive := Alive(announcers[1..], now, ttl);
      if !Expired(announcers[0], now, ttl) {
        assert ([announcers[0]] + alive)[1..] == alive;
      } else {
        assert [] + alive == alive;
      }
    }
  }

  lemma {:induction false} AliveCostsLess(sz: Sizes, announcers: seq<Announcer>, now: nat, ttl: nat)
    ensures AnnouncersCost(sz, Alive(announcers, now, ttl)) <= AnnouncersCost(sz, announcers)
  {
    if announcers != [] {
      AliveCostsLess(sz, announcers[1..], now, ttl);
      var alive := Alive(announcers[1..], now, ttl);
      if !Expired(announcers[0], now, ttl) {
        assert ([announcers[0]] + alive)[1..] == alive;
      } else {
        assert [] + alive == alive;
      }
    }
  }

  /** Dropping expired announcers and recomputing never makes a consistent route dearer. */
  lemma {:induction false} AliveRouteCostsLess(sz: Sizes, r: Route, now: nat, ttl: nat)
    requires Consistent(r)
    ensures RouteCost(sz, Recomputed(r.side, Alive(r.announcers, now, ttl))) <= RouteCost(sz, r)
  {
    var alive := Alive(r.announcers, now, ttl);
    var p := Recomputed(r.side, alive);
    TextOrder();
    NatOrder();
    SortDedupMeaning(NatLess, EndpointsOf(r.announcers));
    SortDedupMeaning(NatLess, EndpointsOf(alive));
    SortDedupMeaning(TextLess, SourcesOf(r.announcers));
    SortDedupMeaning(TextLess, SourcesOf(alive));
    forall e: nat | e in p.endpoints ensures e in r.endpoints {
      AliveElements(r.announcers, now, ttl, e, []);
    }
    forall t: Text | t in p.sources ensures t in r.sources {
      AliveElements(r.announcers, now, ttl, 0, t);
    }
    SubsetWeighsLess(NatLess, One, p.endpoints, r.endpoints);
    SumOfOnes(p.endpoints);
    SumOfOnes(r.endpoints);
    ProductGrows(sz.endpoint, |p.endpoints|, |r.endpoints|);
    SubsetWeighsLess(TextLess, TextSize, p.sources, r.sources);
    AliveCostsLess(sz, r.announcers, now, ttl);
  }

  lemma {:induction false} RecomputedConsistent(side: nat, announcers: seq<Announcer>)
    ensures Consistent(Recomputed(side, announcers))
  {
  }

  lemma {:induction false} PruneCostsLess(sz: Sizes, routes: seq<Route>, now: nat, ttl: nat)
    requires AllConsistent(routes)
    ensures RoutesCost(sz, Pruned(routes, now, ttl)) <= RoutesCost(sz, routes)
  {
    if routes != [] {
      hide RouteCost, Recomputed, Alive, Consistent;
      PruneCostsLess(sz, routes[1..], now, ttl);
      AliveRouteCostsLess(sz, routes[0], now, ttl);
      var alive := Alive(routes[0].announcers, now, ttl);
      var head := if alive == [] then [] else [Recomputed(routes[0].side, alive)];
      RoutesCostConcat(sz, head, Pruned(routes[1..], now, ttl));
    }
  }

  lemma {:induction false} ConsistentConcat(a: seq<Route>, b: seq<Route>)
    requires AllConsistent(a) && AllConsistent(b)
    ensures AllConsistent(a + b)
  {
    hide Consistent;
  }

  lemma {:induction false} PruneConsistent(routes: seq<Route>, now: nat, ttl: nat)
    ensures AllConsistent(Pruned(routes, now, ttl))
  {
    if routes != [] {
      hide Recomputed, Alive, Consistent;
      PruneConsistent(routes[1..], now, ttl);
      var alive := Alive(routes[0].announcers, now, ttl);
      RecomputedConsistent(routes[0].side, alive);
      ConsistentConcat(if alive == [] then [] else [Recomputed(routes[0].side, alive)], Pruned(routes[1..], now, ttl));
    }
  }

  // -------------------------------------------------------------------------
  // Learning
  // -------------------------------------------------------------------------

  /** Adds or replaces what one announcer says, in name order. */
  function WithAnnouncer(announcers: seq<Announcer>, a: Announcer): seq<Announcer>
  {
    if announcers == [] || TextLess(a.sender, announcers[0].sender) then [a] + announcers
    else if announcers[0].sender == a.sender then [a] + announcers[1..]
    else [announcers[0]] + WithAnnouncer(announcers[1..], a)
  }

  /** Adds or replaces the route of one side, in side order, with one announcer's fresh statement. */
  function Learned(routes: seq<Route>, side: nat, a: Announcer): seq<Route>
  {
    if routes == [] || side < routes[0].side then [Recomputed(side, [a])] + routes
    else if routes[0].side == side then [Recomputed(side, WithAnnouncer(routes[0].announcers, a))] + routes[1..]
    else [routes[0]] + Learned(routes[1..], side, a)
  }

  lemma {:induction false} LearnedConsistent(routes: seq<Route>, side: nat, a: Announcer)
    requires AllConsistent(routes)
    ensures AllConsistent(Learned(routes, side, a))
  {
    if routes != [] && side > routes[0].side {
      LearnedConsistent(routes[1..], side, a);
    }
  }

  lemma {:induction false} NamedElements(announcers: seq<Announcer>, e: nat, t: Text)
    ensures e in EndpointsOf(announcers) <==> exists i :: 0 <= i < |announcers| && e in announcers[i].endpoints
    ensures t in SourcesOf(announcers) <==> exists i :: 0 <= i < |announcers| && t in announcers[i].sources
  {
    if |announcers| > 0 {
      NamedElements(announcers[1..], e, t);
      assert forall i :: 0 < i < |announcers| ==> announcers[i] == announcers[1..][i - 1];
    }
  }

  lemma {:induction false} LatestIs(announcers: seq<Announcer>)
    ensures forall i :: 0 <= i < |announcers| ==> announcers[i].lastSeen <= LatestOf(announcers)
    ensures |announcers| > 0 ==> exists i :: 0 <= i < |announcers| && announcers[i].lastSeen == LatestOf(announcers)
  {
    if |announcers| > 0 {
      var rest := announcers[1..];
      LatestIs(rest);
      assert forall i :: 0 < i < |announcers| ==> announcers[i] == rest[i - 1];
      if |rest| == 0 {
        assert rest == [] && LatestOf(rest) == 0;
        assert announcers[0].lastSeen == LatestOf(announcers);
      } else if LatestOf(announcers) != announcers[0].lastSeen {
        var k :| 0 <= k < |rest| && rest[k].lastSeen == LatestOf(rest);
        assert announcers[k + 1].lastSeen == LatestOf(announcers);
      }
    }
  }

  /**
    The aggregate of a side: the endpoints and the time sources are those that some announcer names, sorted and
    each once; and the side was heard from when the latest of its announcers was.
   */
  lemma {:induction false} RecomputedMeaning(side: nat, announcers: seq<Announcer>, e: nat, t: Text)
    ensures var r := Recomputed(side, announcers);
            && r.side == side && r.announcers == announcers
            && Ascending(NatLess, r.endpoints) && Ascending(TextLess, r.sources)
            && (e in r.endpoints <==> exists i :: 0 <= i < |announcers| && e in announcers[i].endpoints)
            && (t in r.sources <==> exists i :: 0 <= i < |announcers| && t in announcers[i].sources)
            && (forall i :: 0 <= i < |announcers| ==> announcers[i].lastSeen <= r.lastSeen)
            && (|announcers| > 0 ==> exists i :: 0 <= i < |announcers| && announcers[i].lastSeen == r.lastSeen)
  {
    hide EndpointsOf, SourcesOf, LatestOf;
    TextOrder();
    NatOrder();
    SortDedupMeaning(NatLess, EndpointsOf(announcers));
    SortDedupMeaning(TextLess, SourcesOf(announcers));
    NamedElements(announcers, e, t);
    LatestIs(announcers);
  }

  // -------------------------------------------------------------------------
  // Giving up routes
  // -------------------------------------------------------------------------

  /** Index of the route heard from least recently, the lowest side first. */
  function Oldest(routes: seq<Route>): (i: nat)
    requires routes != []
    ensures i < |routes|
    ensures forall k :: 0 <= k < |routes| ==> routes[i].lastSeen <= routes[k].lastSeen
    ensures forall k :: 0 <= k < i ==> routes[i].lastSeen < routes[k].lastSeen
  {
    if |routes| == 1 then 0
    else
      var j := Oldest(routes[1..]);
      if routes[0].lastSeen <= routes[1..][j].lastSeen then 0 else j + 1
  }

  function WithoutRoute(routes: seq<Route>, i: nat): seq<Route>
    requires i < |routes|
  {
    routes[..i] + routes[i + 1..]
  }

  lemma {:induction false} WithoutRouteCost(sz: Sizes, routes: seq<Route>, i: nat)
    requires i < |routes|
    ensures RoutesCost(sz, WithoutRoute(routes, i)) + RouteCost(sz, routes[i]) == RoutesCost(sz, routes)
    ensures AllConsistent(routes) ==> AllConsistent(WithoutRoute(routes, i))
  {
    RoutesCostConcat(sz, routes[..i], routes[i..]);
    assert routes[..i] + routes[i..] == routes;
    assert routes[i..][1..] == routes[i + 1..];
    RoutesCostConcat(sz, routes[..i], routes[i + 1..]);
  }

  /** Gives up the oldest routes until the rest fits beside `others` bytes, or none is left. */
  function Fitted(sz: Sizes, routes: seq<Route>, others: nat, budget: nat): seq<Route>
    decreases |routes|
  {
    if routes == [] || others + RoutesCost(sz, routes) <= budget then routes
    else Fitted(sz, WithoutRoute(routes, Oldest(routes)), others, budget)
  }

  lemma {:induction false} FittedFits(sz: Sizes, routes: seq<Route>, others: nat, budget: nat)
    requires AllConsistent(routes)
    ensures var r := Fitted(sz, routes, others, budget);
            && AllConsistent(r) && RoutesCost(sz, r) <= RoutesCost(sz, routes)
            && (others <= budget ==> others + RoutesCost(sz, r) <= budget)
    decreases |routes|
  {
    if routes != [] && others + RoutesCost(sz, routes) > budget {
      var i := Oldest(routes);
      WithoutRouteCost(sz, routes, i);
      FittedFits(sz, WithoutRoute(routes, i), others, budget);
    }
  }

  /** The routes without the `n` stalest ones. */
  function WithoutStalest(routes: seq<Route>, n: nat): seq<Route>
    requires n <= |routes|
    ensures |WithoutStalest(routes, n)| == |routes| - n
    decreases n
  {
    if n == 0 then routes else WithoutStalest(WithoutRoute(routes, Oldest(routes)), n - 1)
  }

  /** Exactly as many of the stalest routes are given up as have to be. */
  lemma {:induction false} FittedExactly(sz: Sizes, routes: seq<Route>, others: nat, budget: nat) returns (n: nat)
    ensures n <= |routes| && Fitted(sz, routes, others, budget) == WithoutStalest(routes, n)
    ensures forall m: nat :: m < n ==> others + RoutesCost(sz, WithoutStalest(routes, m)) > budget
    ensures n == |routes| || others + RoutesCost(sz, WithoutStalest(routes, n)) <= budget
    decreases |routes|
  {
    hide RoutesCost, Oldest, WithoutRoute;
    n := 0;
    if routes != [] && others + RoutesCost(sz, routes) > budget {
      var fewer := WithoutRoute(routes, Oldest(routes));
      OneFewer(routes);
      var k := FittedExactly(sz, fewer, others, budget);
      n := k + 1;
      forall m: nat | m < n ensures others + RoutesCost(sz, WithoutStalest(routes, m)) > budget {
        if m > 0 {
          assert WithoutStalest(routes, m) == WithoutStalest(fewer, m - 1);
        }
      }
    }
  }

  lemma {:induction false} OneFewer(routes: seq<Route>)
    requires routes != []
    ensures |WithoutRoute(routes, Oldest(routes))| == |routes| - 1
  {
  }

  // -------------------------------------------------------------------------
  // What learning and pruning mean, side by side
  // -------------------------------------------------------------------------

  function Lookup(routes: seq<Route>, side: nat): Option<Route>
  {
    if |routes| == 0 then None else if routes[0].side == side then Some(routes[0]) else Lookup(routes[1..], side)
  }

  function AnnouncersAt(routes: seq<Route>, side: nat): seq<Announcer>
  {
    match Lookup(routes, side) case None => [] case Some(r) => r.announcers
  }

  ghost predicate BySide(routes: seq<Route>)
  {
    forall i, j :: 0 <= i < j < |routes| ==> routes[i].side < routes[j].side
  }

  ghost predicate BySender(announcers: seq<Announcer>)
  {
    forall i, j :: 0 <= i < j < |announcers| ==> TextLess(announcers[i].sender, announcers[j].sender)
  }

  lemma {:induction false} LookupAbsent(routes: seq<Route>, side: nat)
    requires forall i :: 0 <= i < |routes| ==> routes[i].side != side
    ensures Lookup(routes, side) == None
  {
    if |routes| > 0 {
      LookupAbsent(routes[1..], side);
    }
  }

  /** Learning replaces what one announcer of one side says, and touches no other side. */
  lemma {:induction false} LearnedMeaning(routes: seq<Route>, side: nat, a: Announcer, other: nat)
    requires BySide(routes)
    ensures Lookup(Learned(routes, side, a), side) == Some(Recomputed(side,
            WithAnnouncer(AnnouncersAt(routes, side), a)))
    ensures other != side ==> Lookup(Learned(routes, side, a), other) == Lookup(routes, other)
  {
    hide Recomputed, WithAnnouncer;
    RecomputedSide(side, WithAnnouncer(AnnouncersAt(routes, side), a));
    RecomputedSide(side, [a]);
    if |routes| == 0 || side < routes[0].side {
      LookupAbsent(routes, side);
      NoAnnouncers(a);
      assert ([Recomputed(side, [a])] + routes)[1..] == routes;
    } else if routes[0].side != side {
      LearnedMeaning(routes[1..], side, a, other);
      var rest := Learned(routes[1..], side, a);
      assert ([routes[0]] + rest)[1..] == rest;
    } else {
      var head := Recomputed(side, WithAnnouncer(routes[0].announcers, a));
      assert ([head] + routes[1..])[1..] == routes[1..];
    }
  }

  lemma {:induction false} RecomputedSide(side: nat, announcers: seq<Announcer>)
    ensures Recomputed(side, announcers).side == side
  {
  }

  lemma {:induction false} NoAnnouncers(a: Announcer)
    ensures WithAnnouncer([], a) == [a]
  {
    assert [a] + [] == [a];
  }

  /** Everyone else's statements stay, and the list stays sorted by name. */
  lemma {:induction false} WithAnnouncerMeaning(announcers: seq<Announcer>, a: Announcer, x: Announcer)
    requires BySender(announcers)
    ensures x in WithAnnouncer(announcers, a) <==> x == a || (x in announcers && x.sender != a.sender)
    decreases |announcers|
  {
    TextOrder();
    if |announcers| > 0 {
      assert announcers == [announcers[0]] + announcers[1..];
      forall y | y in announcers[1..] ensures TextLess(announcers[0].sender, y.sender) {
        var k :| 0 <= k < |announcers[1..]| && announcers[1..][k] == y;
        assert announcers[k + 1] == y;
      }
      if !TextLess(a.sender, announcers[0].sender) && announcers[0].sender != a.sender {
        WithAnnouncerMeaning(announcers[1..], a, x);
      }
    }
  }

  /** Exactly those stay who were heard from within the time to live. */
  lemma {:induction false} AliveMeaning(announcers: seq<Announcer>, now: nat, ttl: nat, x: Announcer)
    ensures x in Alive(announcers, now, ttl) <==> x in announcers && now <= x.lastSeen + ttl
  {
    if |announcers| > 0 {
      assert announcers == [announcers[0]] + announcers[1..];
      AliveMeaning(announcers[1..], now, ttl, x);
    }
  }

  /** Pruning keeps of every side what is still alive, and the side only if something is. */
  lemma {:induction false} PrunedMeaning(routes: seq<Route>, now: nat, ttl: nat, side: nat)
    requires BySide(routes)
    ensures Lookup(Pruned(routes, now, ttl), side)
            == match Lookup(routes, side)
               case None => None
               case Some(r) =>
                 var alive := Alive(r.announcers, now, ttl);
                 if alive == [] then None else Some(Recomputed(side, alive))
    decreases |routes|
  {
    hide Recomputed, Alive;
    if |routes| > 0 {
      PrunedMeaning(routes[1..], now, ttl, side);
      var alive := Alive(routes[0].announcers, now, ttl);
      var rest := Pruned(routes[1..], now, ttl);
      RecomputedSide(routes[0].side, alive);
      assert ([Recomputed(routes[0].side, alive)] + rest)[1..] == rest && [] + rest == rest;
      if routes[0].side == side {
        LookupAbsent(routes[1..], side);
      }
    }
  }
}
