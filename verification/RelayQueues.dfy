/** The relay's stores as objects: each operation does to them what `QueueBudget` says, within the budget. */
module RelayQueues {
  import opened Wrappers
  import ReliableTypes
  import opened BoundedDeques
  import opened DiscoveryRoutes
  import opened QueueBudget

  class RelayStores {
    const cfg: Config
    const rx: BoundedDeque
    const tx: BoundedDeque
    const replay: BoundedDeque
    const recent: BoundedDeque
    var early: seq<Early>
    var routes: seq<Route>

    ghost function Contents(): Stores
      reads this, rx, tx, replay, recent
    {
      Stores(rx.q, tx.q, replay.q, recent.q, early, routes)
    }

    /** Four separate, well-formed queues with the configured limits. */
    ghost predicate Wired()
      reads this, rx, tx, replay, recent
    {
      && ValidConfig(cfg)
      && rx != tx && rx != replay && rx != recent && tx != replay && tx != recent && replay != recent
      && rx.Valid() && tx.Valid() && replay.Valid() && recent.Valid()
      && rx.maxBytes == tx.maxBytes == replay.maxBytes == cfg.budget && recent.maxBytes == cfg.recentMax
      && rx.maxElems == cfg.rxElems && tx.maxElems == cfg.txElems
      && replay.maxElems == cfg.replayElems && recent.maxElems == cfg.recentElems
    }

    ghost predicate Valid()
      reads this, rx, tx, replay, recent
    {
      Wired() && WithinBudget(cfg, Contents())
    }

    /** Empty stores; `rxSize`, `txSize` and `replaySize` are the in-memory sizes that cap the queue lengths. */
    constructor (budget: nat, recentMax: nat, maxRecentIds: nat, maxPending: nat, ttl: nat, handleSize: nat,
        idSize: nat,
      rxSize: nat, txSize: nat, replaySize: nat, sizes: Sizes, starting: nat, growNum: nat, growDen: nat)
      requires 0 < recentMax && idSize <= recentMax <= budget && starting <= budget
      requires maxRecentIds >= 1 && maxPending >= 1 && 1 <= growDen < growNum
      ensures Valid() && Contents() == EMPTY && cfg.budget == budget && cfg.recentMax == recentMax
      ensures fresh(rx) && fresh(tx) && fresh(replay) && fresh(recent)
    {
      var r := new BoundedDeque(budget, starting, rxSize, growNum, growDen);
      var t := new BoundedDeque(budget, starting, txSize, growNum, growDen);
      var p := new BoundedDeque(budget, starting, replaySize, growNum, growDen);
      var ids := new BoundedDeque(recentMax, recentMax, idSize, growNum, growDen);
      rx, tx, replay, recent, early, routes := r, t, p, ids, [], [];
      cfg := Config(budget, recentMax, maxRecentIds, maxPending, ttl, handleSize, idSize,
                    r.maxElems, t.maxElems, p.maxElems, ids.maxElems, sizes);
      new;
      assert Contents() == EMPTY;
    }

    method BytesUsed() returns (n: nat)
      requires Wired()
      ensures n == Used(cfg, Contents())
    {
      n := rx.curBytes + tx.curBytes + replay.curBytes + recent.maxBytes
           + EarlyBytes(cfg, early) + RoutesCost(cfg.sizes, routes);
    }

    /** Compares the kept byte counters, candidate by candidate. */
    method LargestStore() returns (k: Option<Kind>)
      requires Wired()
      ensures LargestSoFar(cfg, Contents(), k, 6) && k == Victim(cfg, Contents())
    {
      hide Larger, LargestSoFar, Victim;
      var candidates := [(Rx, rx.curBytes, |rx.q|), (Tx, tx.curBytes, |tx.q|), (Replay, replay.curBytes, |replay.q|),
                         (Recent, 0, 0), (EarlyFrames, EarlyBytes(cfg, early), |early|),
                         (Routes, RoutesCost(cfg.sizes, routes), |routes|)];
      ghost var s := Contents();
      NothingBefore(cfg, s);
      k := None;
      var most := 0;
      for i := 0 to 6
        invariant k.Some? ==> most == Held(cfg, s, k.value)
        invariant LargestSoFar(cfg, s, k, i)
      {
        var (kind, bytes, length) := candidates[i];
        assert Place(kind) == i && bytes == Held(cfg, s, kind) && (bytes > 0 ==> length > 0);
        LargerStep(cfg, s, k, kind);
        LargerIs(cfg, s, k, kind);
        if bytes > 0 && length > 0 && (k.None? || most < bytes || (most == bytes && Rank(k.value) <= Rank(kind))) {
          k, most := Some(kind), bytes;
        }
      }
      VictimIsLargest(cfg, s);
      OneVictim(cfg, s, k, Victim(cfg, s));
    }

    method PopItem(k: Kind) returns (popped: bool)
      requires Wired()
      modifies this, rx, tx, replay, recent
      ensures Wired()
      ensures match Popped(old(Contents()), k)
              case Some(t) => popped && Contents() == t
              case None => !popped && Contents() == old(Contents())
    {
      var item: Item;
      match k
      case Rx => popped, item := rx.PopFront();
      case Tx => popped, item := tx.PopFront();
      case Replay => popped, item := replay.PopFront();
      case Recent => popped, item := recent.PopFront();
      case EarlyFrames =>
        popped := early != [];
        if popped {
          early := early[1..];
        }
      case Routes =>
        popped := routes != [];
        if popped {
          routes := WithoutRoute(routes, Oldest(routes));
        }
    }

    /** One pass of the loop below. */
    method EvictOne(preferred: Kind) returns (evicted: bool)
      requires Wired()
      modifies this, rx, tx, replay, recent
      ensures Wired()
      ensures match Evicted(cfg, old(Contents()), preferred)
              case Some(t) => evicted && Contents() == t
              case None => !evicted && Contents() == old(Contents())
    {
      var largest := LargestStore();
      evicted := PopItem(if largest.Some? then largest.value else preferred);
      if !evicted {
        evicted := PopItem(preferred);
      }
    }

    method MakeSharedQueueRoom(cost: nat, preferred: Kind) returns (ok: bool)
      requires Wired()
      modifies this, rx, tx, replay, recent
      ensures Wired() && (Contents(), ok) == MakeRoom(cfg, old(Contents()), cost, preferred)
    {
      if cost > cfg.budget {
        return false;
      }
      hide Evicted, Used, Count;
      ghost var start := Contents();
      var used := BytesUsed();
      while used + cost > cfg.budget
        invariant Wired() && used == Used(cfg, Contents())
        invariant Evicting(cfg, Contents(), cost, preferred) == Evicting(cfg, start, cost, preferred)
        decreases Count(Contents())
      {
        EvictedShrinks(cfg, Contents(), preferred);
        var evicted := EvictOne(preferred);
        if !evicted {
          return false;
        }
        used := BytesUsed();
      }
      ok := true;
    }

    method PushRx(v: Item) returns (outcome: PushOutcome)
      requires Valid()
      modifies this, rx, tx, replay, recent
      ensures Valid() && (Contents(), outcome) == PushedRx(cfg, old(Contents()), v)
    {
      PushesKeepBudget(cfg, Contents(), v);
      var ok := MakeSharedQueueRoom(v.cost, Rx);
      if !ok {
        return TooLarge;
      }
      outcome := rx.PushBackPrioritized(v);
    }

    method PushTx(v: Item) returns (outcome: PushOutcome)
      requires Valid()
      modifies this, rx, tx, replay, recent
      ensures Valid() && (Contents(), outcome) == PushedTx(cfg, old(Contents()), v)
    {
      PushesKeepBudget(cfg, Contents(), v);
      var ok := MakeSharedQueueRoom(v.cost, Tx);
      if !ok {
        return TooLarge;
      }
      outcome := tx.PushBackPrioritized(v);
    }

    method PushReplay(v: Item) returns (outcome: PushOutcome)
      requires Valid()
      modifies this, rx, tx, replay, recent
      ensures Valid() && (Contents(), outcome) == PushedReplay(cfg, old(Contents()), v)
    {
      PushesKeepBudget(cfg, Contents(), v);
      var ok := MakeSharedQueueRoom(v.cost, Replay);
      if !ok {
        return TooLarge;
      }
      outcome := replay.PushBackPrioritized(v);
    }

    method PushRecent(id: nat) returns (outcome: PushOutcome)
      requires Valid()
      modifies this, rx, tx, replay, recent
      ensures Valid() && (Contents(), outcome) == PushedRecent(cfg, old(Contents()), id)
    {
      RecentKeepsBudget(cfg, Contents(), id);
      ghost var start := Contents();
      while |recent.q| >= cfg.maxRecentIds
        invariant Wired() && Contents() == start.(recent := recent.q)
        invariant FewerThan(recent.q, cfg.maxRecentIds) == FewerThan(start.recent, cfg.maxRecentIds)
        decreases |recent.q|
      {
        var popped, oldest := recent.PopFront();
      }
      var ok := MakeSharedQueueRoom(0, Recent);
      if !ok {
        return TooLarge;
      }
      outcome := recent.PushBack(RecentItem(cfg, id));
    }

    method BufferReliableRx(f: Early) returns (ok: bool)
      requires Valid()
      modifies this, rx, tx, replay, recent
      ensures Valid() && (Contents(), ok) == Buffered(cfg, old(Contents()), f)
    {
      hide Bytes, EarlyBytes, RoutesCost, AllConsistent, Waiting, MakeRoom, WithinBudget, WithEarly, WithoutFirst,
        StreamLength;
      BufferKeepsBudget(cfg, Contents(), f);
      if Waiting(early, f) {
        return true;
      }
      ok := MakeSharedQueueRoom(cfg.handleSize + f.length, EarlyFrames);
      if !ok {
        return;
      }
      if StreamLength(early, f) >= cfg.maxPending {
        early := WithoutFirst(early, f);
      }
      early := WithEarly(early, f);
    }

    method FitDiscoveryBudget()
      requires Wired()
      modifies this`routes
      ensures Wired()
      ensures routes == Fitted(cfg.sizes, old(routes), Others(cfg, Contents()), cfg.budget)
    {
      ghost var others := Others(cfg, Contents());
      var used := BytesUsed();
      while used > cfg.budget
        invariant Wired() && used == others + RoutesCost(cfg.sizes, routes) && others == Others(cfg, Contents())
        invariant Fitted(cfg.sizes, routes, others, cfg.budget) == Fitted(cfg.sizes, old(routes), others, cfg.budget)
        decreases |routes|
      {
        if routes == [] {
          return;
        }
        routes := WithoutRoute(routes, Oldest(routes));
        used := BytesUsed();
      }
    }

    method PruneDiscoveryRoutes(now: nat) returns (changed: bool)
      requires Valid()
      modifies this`routes
      ensures Valid() && Contents() == PrunedStores(cfg, old(Contents()), now)
      ensures changed <==> routes != old(routes)
    {
      PruneKeepsBudget(cfg, Contents(), now);
      var before := routes;
      routes := Pruned(routes, now, cfg.ttl);
      changed := routes != before;
    }

    method LearnDiscovery(side: nat, a: Announcer, now: nat)
      requires Valid()
      modifies this`routes
      ensures Valid() && Contents() == LearnedStores(cfg, old(Contents()), side, a, now)
    {
      hide Bytes, EarlyBytes, RoutesCost, AllConsistent, Learned, Fitted, Pruned;
      ghost var start := Contents();
      LearnKeepsBudget(cfg, start, side, a, now);
      routes := Learned(routes, side, a);
      FitDiscoveryBudget();
      LearnedConsistent(start.routes, side, a);
      FittedFits(cfg.sizes, Learned(start.routes, side, a), Others(cfg, start), cfg.budget);
      var changed := PruneDiscoveryRoutes(now);
    }

    method RemoveSide(side: int)
      requires Valid()
      modifies this, rx, tx, replay
      ensures Valid() && Contents() == RemovedSide(old(Contents()), side)
    {
      RemoveSideKeepsBudget(cfg, Contents(), side);
      rx.Retain((x: Item) => x.src != side);
      tx.Retain((x: Item) => x.dst != side && x.src != side);
      replay.Retain((x: Item) => x.dst != side);
      early := KeptFrames(early, (f: Early) => f.side != side);
      routes := WithoutSideRoute(routes, side);
    }

    /** The consecutive frames that wait from `first` on leave the stream's reorder buffer. */
    method ReleaseFrames(side: int, ty: nat, first: nat) returns (count: nat)
      requires Valid()
      modifies this`early
      ensures Valid() && Contents() == Released(old(Contents()), side, ty, NumbersFrom(first, count))
      ensures forall k: nat :: k < count ==> Waiting(old(early), Early(side, ty, NumberFrom(first, k), 0))
      ensures !Waiting(early, Early(side, ty, NumberFrom(first, count), 0))
    {
      hide Bytes, RoutesCost, AllConsistent, EarlyBytes, KeptFrames, Waiting;
      ghost var start := Contents();
      var next := first;
      count := 0;
      ReleasedNothing(start, side, ty);
      while Waiting(early, Early(side, ty, next, 0))
        invariant Wired() && Contents() == Released(start, side, ty, NumbersFrom(first, count))
        invariant next == NumberFrom(first, count)
        invariant forall k: nat :: k < count ==> Waiting(start.early, Early(side, ty, NumberFrom(first, k), 0))
        decreases |early|
      {
        ReleasedOneMore(cfg, start, side, ty, NumbersFrom(first, count), next);
        early := KeptFrames(early, Outside(side, ty, {next}));
        count := count + 1;
        next := ReliableTypes.AfterSeq(next);
      }
      ReleaseKeepsBudget(cfg, start, side, ty, NumbersFrom(first, count));
    }

    method DisableEgress(side: int)
      requires Valid()
      modifies tx, replay
      ensures Valid() && Contents() == EgressDisabled(old(Contents()), side)
    {
      DisableEgressKeepsBudget(cfg, Contents(), side);
      tx.Retain((x: Item) => x.dst != side);
      replay.Retain((x: Item) => x.dst != side);
    }
  }
}
