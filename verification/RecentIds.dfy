/** The relay's memory of recently handled packets: a bounded list of IDs, oldest first. */
module RecentIds {
  import opened Basics
  import opened Wrappers
  import opened BoundedDeques
  import opened DiscoveryRoutes
  import opened QueueBudget

  /** Notes an ID behind the newest old ones. */
  function Noted(recent: seq<nat>, id: nat, capacity: nat): seq<nat>
    requires capacity >= 1
  {
    (if |recent| < capacity then recent else recent[|recent| + 1 - capacity..]) + [id]
  }

  function IdsOf(q: seq<Item>): (r: seq<nat>)
    ensures |r| == |q| && forall i :: 0 <= i < |q| ==> r[i] == q[i].id
  {
    seq(|q|, i requires 0 <= i < |q| => q[i].id)
  }

  ghost predicate SameCost(q: seq<Item>, cost: nat)
  {
    forall i :: 0 <= i < |q| ==> q[i].cost == cost
  }

  lemma {:induction false} BytesOfSameCost(q: seq<Item>, cost: nat)
    requires SameCost(q, cost)
    ensures Bytes(q) == |q| * cost
  {
    if q != [] {
      BytesOfSameCost(q[..|q| - 1], cost);
    }
  }

  /** How many IDs the relay remembers: as configured, or as many as the reservation holds. */
  function Capacity(cfg: Config): nat
  {
    if cfg.maxRecentIds < cfg.recentElems then cfg.maxRecentIds else cfg.recentElems
  }

  /** The element cap is what the reservation holds. */
  ghost predicate CapMatches(cfg: Config)
  {
    cfg.idSize > 0 && cfg.recentElems * cfg.idSize <= cfg.recentMax < (cfg.recentElems + 1) * cfg.idSize
  }

  lemma {:induction false} TrimmedToFit(q: seq<Item>, cost: nat, maxBytes: nat, elems: nat)
    requires SameCost(q, cost) && cost > 0 && elems >= 1 && elems * cost <= maxBytes < (elems + 1) * cost
    ensures TrimHead(q, cost, maxBytes) == if |q| < elems then q else q[|q| + 1 - elems..]
    decreases |q|
  {
    BytesOfSameCost(q, cost);
    if |q| < elems {
      assert (|q| + 1) * cost <= elems * cost by { ProductGrows(cost, |q| + 1, elems); }
    } else {
      assert (elems + 1) * cost <= (|q| + 1) * cost by { ProductGrows(cost, elems + 1, |q| + 1); }
      TrimmedToFit(q[1..], cost, maxBytes, elems);
      assert |q| > elems ==> q[1..][|q| - elems..] == q[|q| + 1 - elems..];
    }
  }

  /** What is kept of the old IDs. */
  lemma {:induction false} KeptRecent(cfg: Config, q: seq<Item>) returns (m: nat)
    requires ValidConfig(cfg) && CapMatches(cfg) && SameCost(q, cfg.idSize)
    ensures m == (if |q| < Capacity(cfg) then 0 else |q| + 1 - Capacity(cfg)) && m <= |q|
    ensures TrimHead(FewerThan(q, cfg.maxRecentIds), cfg.idSize, cfg.recentMax) == q[m..] && |q[m..]| < cfg.recentElems
  {
    hide TrimHead, FewerThan;
    var n := FewerThanMeaning(q, cfg.maxRecentIds);
    var fewer := q[n..];
    TrimmedToFit(fewer, cfg.idSize, cfg.recentMax, cfg.recentElems);
    m := if |fewer| < cfg.recentElems then n else n + (|fewer| + 1 - cfg.recentElems);
    assert fewer[m - n..] == q[m..];
    assert fewer[0..] == fewer;
  }

  lemma {:induction false} RoomForNothing(cfg: Config, s: Stores, fewer: seq<Item>)
    requires WithinBudget(cfg, s)
    ensures MakeRoom(cfg, s.(recent := fewer), 0, Recent) == (s.(recent := fewer), true)
  {
    hide Bytes, AllConsistent, EarlyBytes, RoutesCost;
  }

  lemma {:induction false} IdsOfKept(q: seq<Item>, m: nat, v: Item)
    requires m <= |q|
    ensures IdsOf(q[m..] + [v]) == IdsOf(q)[m..] + [v.id]
  {
  }

  /** Within the budget, noting an ID in the relay's stores does exactly this to its recent IDs, and nothing else. */
  lemma {:induction false} NotedIsPushed(cfg: Config, s: Stores, id: nat)
    requires ValidConfig(cfg) && CapMatches(cfg) && WithinBudget(cfg, s) && SameCost(s.recent, cfg.idSize)
    ensures var (t, outcome) := PushedRecent(cfg, s, id);
            && outcome.Pushed? && t == s.(recent := t.recent) && SameCost(t.recent, cfg.idSize)
            && IdsOf(t.recent) == Noted(IdsOf(s.recent), id, Capacity(cfg))
  {
    hide WithinBudget, MakeRoom, TrimHead, FewerThan, CapMatches, IdsOf;
    var m := KeptRecent(cfg, s.recent);
    RoomForNothing(cfg, s, FewerThan(s.recent, cfg.maxRecentIds));
    IdsOfKept(s.recent, m, RecentItem(cfg, id));
    assert m == 0 ==> IdsOf(s.recent)[m..] == IdsOf(s.recent);
  }

  lemma {:induction false} NotedElements(recent: seq<nat>, id: nat, capacity: nat, x: nat)
    requires capacity >= 1
    ensures x in Noted(recent, id, capacity) ==> x == id || x in recent
    ensures id in Noted(recent, id, capacity) && |Noted(recent, id, capacity)| >= 1
    ensures |recent| < capacity ==> (x in Noted(recent, id, capacity) <==> x == id || x in recent)
  {
    var r := Noted(recent, id, capacity);
    assert r[|r| - 1] == id;
  }
}
