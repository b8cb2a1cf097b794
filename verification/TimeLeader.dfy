/** Election of a time leader: what one node tracks and decides, and what a system of nodes can never do. */
module TimeLeader {
  import opened Wrappers
  import opened CanonicalLists

  datatype Role = Consumer | Source | Auto

  datatype Config = Config(role: Role, priority: nat, timeoutMs: nat, promotion: bool)

  /** A remote source, as its last announce described it. */
  datatype Remote = Remote(sender: Text, priority: nat, lastAnnounce: nat, lastTime: nat)

  /** A node's tracker. The sources are listed by sender, one entry each. */
  datatype Tracker = Tracker(cfg: Config, id: Text, sources: seq<Remote>, current: Option<Text>)

  datatype Leader = Local(priority: nat) | Follow(source: Remote)

  predicate SourceActive(r: Remote, now: nat, timeoutMs: nat)
  {
    now <= r.lastAnnounce || now - r.lastAnnounce <= timeoutMs
  }

  function Active(sources: seq<Remote>, now: nat, timeoutMs: nat): seq<Remote>
  {
    if sources == [] then []
    else (if SourceActive(sources[0], now, timeoutMs) then [sources[0]] else []) + Active(sources[1..], now, timeoutMs)
  }

  /** Lower priority numbers win, and on a tie the lower sender does. */
  predicate Beats(p: nat, id: Text, q: nat, other: Text)
  {
    p < q || (p == q && TextLess(id, other))
  }

  /** The first source that no other beats. */
  function BestOf(sources: seq<Remote>): Option<Remote>
  {
    if sources == [] then None
    else match BestOf(sources[1..])
      case None => Some(sources[0])
      case Some(b) =>
        if Beats(b.priority, b.sender, sources[0].priority, sources[0].sender) then Some(b) else Some(sources[0])
  }

  function Best(t: Tracker, now: nat): Option<Remote>
  {
    BestOf(Active(t.sources, now, t.cfg.timeoutMs))
  }

  function Candidate(t: Tracker, now: nat, hasTime: bool): Option<nat>
  {
    match t.cfg.role
    case Consumer => if hasTime && t.cfg.promotion && Best(t, now).None? then Some(t.cfg.priority) else None
    case Source => Some(t.cfg.priority)
    case Auto => if hasTime && Best(t, now).None? then Some(t.cfg.priority) else None
  }

  function Lead(t: Tracker, now: nat, hasTime: bool): Option<Leader>
  {
    match (Candidate(t, now, hasTime), Best(t, now))
    case (Some(p), Some(r)) => Some(if Beats(p, t.id, r.priority, r.sender) then Local(p) else Follow(r))
    case (Some(p), None) => Some(Local(p))
    case (None, Some(r)) => Some(Follow(r))
    case (None, None) => None
  }

  predicate Tie(sources: seq<Remote>, priority: nat)
  {
    exists i :: 0 <= i < |sources| && sources[i].priority == priority
  }

  /** What a leader advertises: its priority, one better when an active source has the same. */
  function AnnouncePriority(t: Tracker, now: nat, hasTime: bool): Option<nat>
  {
    match Lead(t, now, hasTime)
    case Some(Local(p)) =>
      Some(if Tie(Active(t.sources, now, t.cfg.timeoutMs), p) then (if p == 0 then 0 else p - 1) else p)
    case _ => None
  }

  function Stored(sources: seq<Remote>, r: Remote): seq<Remote>
  {
    if sources == [] || TextLess(r.sender, sources[0].sender) then [r] + sources
    else if sources[0].sender == r.sender then [r] + sources[1..]
    else [sources[0]] + Stored(sources[1..], r)
  }

  function Reselected(t: Tracker, now: nat): Tracker
  {
    t.(current := match Best(t, now) case Some(b) => Some(b.sender) case None => None)
  }

  /** A node ignores its own announces. */
  function Announced(t: Tracker, r: Remote): Tracker
  {
    if r.sender == t.id then t else Reselected(t.(sources := Stored(t.sources, r)), r.lastAnnounce)
  }

  function Refreshed(t: Tracker, now: nat): Tracker
  {
    Reselected(t.(sources := Active(t.sources, now, t.cfg.timeoutMs)), now)
  }

  // -------------------------------------------------------------------------
  // One node
  // -------------------------------------------------------------------------

  lemma {:induction false} ActiveElement(sources: seq<Remote>, now: nat, timeoutMs: nat, r: Remote)
    ensures r in Active(sources, now, timeoutMs) <==> r in sources && SourceActive(r, now, timeoutMs)
  {
    if sources != [] {
      ActiveElement(sources[1..], now, timeoutMs, r);
    }
  }

  lemma {:induction false} StoredElement(sources: seq<Remote>, r: Remote, x: Remote)
    ensures r in Stored(sources, r)
    ensures x in Stored(sources, r) ==> x == r || x in sources
  {
    if sources != [] && !TextLess(r.sender, sources[0].sender) && sources[0].sender != r.sender {
      StoredElement(sources[1..], r, x);
    }
  }

  /** One entry for each sender, in order of senders. */
  ghost predicate Listed(sources: seq<Remote>)
  {
    forall i, j :: 0 <= i < j < |sources| ==> TextLess(sources[i].sender, sources[j].sender)
  }

  lemma {:induction false} FirstIsLeast(sources: seq<Remote>, x: Remote)
    requires Listed(sources) && |sources| > 0 && x in sources[1..]
    ensures TextLess(sources[0].sender, x.sender)
  {
    var k :| 0 <= k < |sources[1..]| && sources[1..][k] == x;
    assert sources[k + 1] == x;
  }

  /** An announce replaces what its sender said before and nothing else. */
  lemma {:induction false} StoredMeaning(sources: seq<Remote>, r: Remote, x: Remote)
    requires Listed(sources)
    ensures x in Stored(sources, r) <==> x == r || (x in sources && x.sender != r.sender)
    decreases |sources|
  {
    hide TextLess;
    TextOrder();
    if |sources| > 0 {
      assert sources == [sources[0]] + sources[1..];
      if x in sources[1..] {
        FirstIsLeast(sources, x);
      }
      if !TextLess(r.sender, sources[0].sender) && sources[0].sender != r.sender {
        StoredMeaning(sources[1..], r, x);
      }
    }
  }

  lemma {:induction false} StoredListed(sources: seq<Remote>, r: Remote)
    requires Listed(sources)
    ensures Listed(Stored(sources, r))
    decreases |sources|
  {
    TextOrder();
    if |sources| > 0 {
      var out := Stored(sources, r);
      if TextLess(r.sender, sources[0].sender) {
        forall j | 0 <= j < |sources| ensures TextLess(r.sender, sources[j].sender) {
          assert j == 0 || TextLess(sources[0].sender, sources[j].sender);
        }
      } else if sources[0].sender != r.sender {
        StoredListed(sources[1..], r);
        var rest := Stored(sources[1..], r);
        forall j | 0 <= j < |rest| ensures TextLess(sources[0].sender, rest[j].sender) {
          StoredMeaning(sources[1..], r, rest[j]);
          if rest[j] in sources[1..] {
            FirstIsLeast(sources, rest[j]);
          }
        }
      }
    }
  }

  lemma {:induction false} ActiveListed(sources: seq<Remote>, now: nat, timeoutMs: nat)
    requires Listed(sources)
    ensures Listed(Active(sources, now, timeoutMs))
    decreases |sources|
  {
    if |sources| > 0 {
      ActiveListed(sources[1..], now, timeoutMs);
      var rest := Active(sources[1..], now, timeoutMs);
      forall j | 0 <= j < |rest| ensures TextLess(sources[0].sender, rest[j].sender) {
        ActiveElement(sources[1..], now, timeoutMs, rest[j]);
        FirstIsLeast(sources, rest[j]);
      }
    }
  }

  lemma {:induction false} BeatsOrder(p: nat, a: Text, q: nat, b: Text, r: nat, c: Text)
    ensures Beats(p, a, q, b) && Beats(q, b, r, c) ==> Beats(p, a, r, c)
    ensures !(Beats(p, a, q, b) && Beats(q, b, p, a))
    ensures Beats(p, a, q, b) || Beats(q, b, p, a) || (p == q && a == b)
  {
    TextOrder();
  }

  /** The best source is one of them, and beats or equals every one of them. */
  lemma {:induction false} BestMeaning(sources: seq<Remote>, x: Remote)
    ensures BestOf(sources).None? <==> sources == []
    ensures BestOf(sources).Some? ==>
              var b := BestOf(sources).value;
              && b in sources
              && (x in sources ==>
                    Beats(b.priority, b.sender, x.priority, x.sender)
                        || (b.priority == x.priority && b.sender == x.sender))
  {
    if sources != [] {
      BestMeaning(sources[1..], x);
      assert sources == [sources[0]] + sources[1..];
      var h := sources[0];
      if BestOf(sources[1..]).Some? {
        var b := BestOf(sources[1..]).value;
        BeatsOrder(b.priority, b.sender, h.priority, h.sender, b.priority, b.sender);
        BeatsOrder(h.priority, h.sender, b.priority, b.sender, x.priority, x.sender);
      }
    }
  }

  /** No active source beats `b`. */
  ghost predicate Unbeaten(b: Remote, sources: seq<Remote>, now: nat, timeoutMs: nat)
  {
    forall x :: x in sources && SourceActive(x, now, timeoutMs) ==> !Beats(x.priority, x.sender, b.priority, b.sender)
  }

  /** An active source of this name is unbeaten. */
  ghost predicate LeadsSources(sender: Text, sources: seq<Remote>, now: nat, timeoutMs: nat)
  {
    exists b :: b in sources && b.sender == sender && SourceActive(b, now, timeoutMs)
        && Unbeaten(b, sources, now, timeoutMs)
  }

  lemma {:induction false} BestOfActive(sources: seq<Remote>, now: nat, timeoutMs: nat)
    ensures var best := BestOf(Active(sources, now, timeoutMs));
            && (best.None? <==> forall r :: r in sources ==> !SourceActive(r, now, timeoutMs))
            && (best.Some? ==> best.value in sources && SourceActive(best.value, now, timeoutMs)
                               && Unbeaten(best.value, sources, now, timeoutMs))
  {
    hide BestOf, Active, SourceActive, Beats;
    var active := Active(sources, now, timeoutMs);
    forall r ensures r in active <==> r in sources && SourceActive(r, now, timeoutMs) {
      ActiveElement(sources, now, timeoutMs, r);
    }
    forall x ensures BestOf(active).Some? && x in active ==>
        BestOf(active).value in active
        && !Beats(x.priority, x.sender, BestOf(active).value.priority, BestOf(active).value.sender) {
      BestMeaning(active, x);
      if BestOf(active).Some? {
        var b := BestOf(active).value;
        BeatsOrder(x.priority, x.sender, b.priority, b.sender, b.priority, b.sender);
        BeatsOrder(b.priority, b.sender, b.priority, b.sender, b.priority, b.sender);
      }
    }
    BestMeaning(active, Remote([], 0, 0, 0));
    if BestOf(active).Some? {
      BestMeaning(active, BestOf(active).value);
    } else {
      assert active == [];
    }
  }

  lemma {:induction false} ActiveSnoc(sources: seq<Remote>, i: nat, now: nat, timeoutMs: nat)
    requires i < |sources|
    ensures Active(sources[..i + 1], now, timeoutMs)
            == Active(sources[..i], now, timeoutMs)
               + if SourceActive(sources[i], now, timeoutMs) then [sources[i]] else []
    decreases i
  {
    if i > 0 {
      ActiveSnoc(sources[1..], i - 1, now, timeoutMs);
      assert sources[..i + 1][1..] == sources[1..][..i] && sources[..i][1..] == sources[1..][..i - 1];
    } else {
      assert sources[..1] == [sources[0]] && [sources[0]][1..] == [] && sources[..0] == [];
    }
  }

  /** Looking at one source more: it takes over only if it beats the best so far. */
  lemma {:induction false} BestSnoc(sources: seq<Remote>, x: Remote)
    ensures BestOf(sources + [x])
            == match BestOf(sources)
               case None => Some(x)
               case Some(b) => Some(if Beats(x.priority, x.sender, b.priority, b.sender) then x else b)
  {
    if sources == [] {
      assert [x][1..] == [];
    } else {
      assert (sources + [x])[1..] == sources[1..] + [x];
      BestSnoc(sources[1..], x);
      var h := sources[0];
      if BestOf(sources[1..]).Some? {
        var b := BestOf(sources[1..]).value;
        BeatsOrder(x.priority, x.sender, b.priority, b.sender, h.priority, h.sender);
        BeatsOrder(b.priority, b.sender, h.priority, h.sender, x.priority, x.sender);
        BeatsOrder(x.priority, x.sender, h.priority, h.sender, b.priority, b.sender);
        BeatsOrder(h.priority, h.sender, x.priority, x.sender, b.priority, b.sender);
        BeatsOrder(h.priority, h.sender, b.priority, b.sender, x.priority, x.sender);
        BeatsOrder(b.priority, b.sender, x.priority, x.sender, h.priority, h.sender);
      }
    }
  }

  /** A node leads exactly when it may and beats every active source. */
  lemma {:induction false} LocalMeaning(t: Tracker, now: nat, hasTime: bool)
    ensures var l := Lead(t, now, hasTime);
            l.Some? && l.value.Local? <==>
            && Candidate(t, now, hasTime).Some?
            && forall r :: r in t.sources && SourceActive(r, now, t.cfg.timeoutMs) ==>
                 Beats(t.cfg.priority, t.id, r.priority, r.sender)
    ensures Lead(t, now, hasTime).Some? && Lead(t, now, hasTime).value.Local? ==>
              Lead(t, now, hasTime).value.priority == t.cfg.priority
  {
    var active := Active(t.sources, now, t.cfg.timeoutMs);
    forall r | r in t.sources && SourceActive(r, now, t.cfg.timeoutMs)
      ensures r in active
    {
      ActiveElement(t.sources, now, t.cfg.timeoutMs, r);
    }
    if Best(t, now).Some? {
      var b := Best(t, now).value;
      BestMeaning(active, b);
      ActiveElement(t.sources, now, t.cfg.timeoutMs, b);
      forall r | r in active && Beats(t.cfg.priority, t.id, b.priority, b.sender)
        ensures Beats(t.cfg.priority, t.id, r.priority, r.sender)
      {
        BestMeaning(active, r);
        BeatsOrder(t.cfg.priority, t.id, b.priority, b.sender, r.priority, r.sender);
      }
    } else {
      BestMeaning(active, Remote([], 0, 0, 0));
    }
  }

  /** Announced priorities never exceed the configured one, decremented for a tie or not. */
  lemma {:induction false} AnnounceAtMostConfigured(t: Tracker, now: nat, hasTime: bool)
    ensures AnnouncePriority(t, now, hasTime).Some? ==> AnnouncePriority(t, now, hasTime).value <= t.cfg.priority
  {
    LocalMeaning(t, now, hasTime);
  }

  // -------------------------------------------------------------------------
  // The decision, on the configuration and on what was heard
  // -------------------------------------------------------------------------

  /** The tracker has an announce that is no older than the timeout. */
  ghost predicate HeardLately(t: Tracker, r: Remote, now: nat)
  {
    r in t.sources && now <= r.lastAnnounce + t.cfg.timeoutMs
  }

  /** The first priority wins over the second: the lower number, and on a tie the lower name. */
  ghost predicate Wins(p: nat, id: Text, q: nat, other: Text)
  {
    p < q || (p == q && TextLess(id, other))
  }

  lemma {:induction false} HeardIsActive(t: Tracker, r: Remote, now: nat)
    ensures HeardLately(t, r, now) <==> r in t.sources && SourceActive(r, now, t.cfg.timeoutMs)
  {
  }

  /**
    The whole decision. A source may always lead; a node that has the time may lead while it hears nobody, if it
    is automatic or promotable. It leads if it may and wins against everyone it hears, with its configured
    priority; otherwise it follows one of those it hears whom nobody it hears wins against; and if it hears nobody,
    there is no leader.
   */
  lemma {:induction false} LeaderExactly(t: Tracker, now: nat, hasTime: bool)
    ensures var l := Lead(t, now, hasTime);
            var alone := forall r :: !HeardLately(t, r, now);
            var may := t.cfg.role == Source || (hasTime && alone && (t.cfg.role == Auto || t.cfg.promotion));
            var leads := may && forall r :: HeardLately(t, r, now) ==>
                                  Wins(t.cfg.priority, t.id, r.priority, r.sender);
            && (leads ==> l == Some(Local(t.cfg.priority)))
            && (!leads && alone ==> l == None)
            && (!leads && !alone ==>
                  && l.Some? && l.value.Follow? && HeardLately(t, l.value.source, now)
                  && forall r :: HeardLately(t, r, now) ==>
                       !Wins(r.priority, r.sender, l.value.source.priority, l.value.source.sender))
  {
    hide BestOf, Active, SourceActive, HeardLately;
    forall r ensures HeardLately(t, r, now) <==> r in t.sources && SourceActive(r, now, t.cfg.timeoutMs) {
      HeardIsActive(t, r, now);
    }
    BestOfActive(t.sources, now, t.cfg.timeoutMs);
    LocalMeaning(t, now, hasTime);
  }

  /**
    What a leader advertises: its configured priority; or one less, but no less than zero, if it hears somebody with
    the very same priority. Nobody else advertises.
   */
  lemma {:induction false} AnnounceExactly(t: Tracker, now: nat, hasTime: bool)
    ensures var q := AnnouncePriority(t, now, hasTime);
            var tie := exists r :: HeardLately(t, r, now) && r.priority == t.cfg.priority;
            && (q.Some? <==> LeadsLocally(t, now, hasTime))
            && (q.Some? ==> q.value == if tie && t.cfg.priority > 0 then t.cfg.priority - 1 else t.cfg.priority)
  {
    hide Lead, Active, SourceActive, HeardLately;
    LocalMeaning(t, now, hasTime);
    var active := Active(t.sources, now, t.cfg.timeoutMs);
    forall r ensures r in active <==> HeardLately(t, r, now) {
      ActiveElement(t.sources, now, t.cfg.timeoutMs, r);
      HeardIsActive(t, r, now);
    }
  }

  ghost predicate LeadsLocally(t: Tracker, now: nat, hasTime: bool)
  {
    Lead(t, now, hasTime).Some? && Lead(t, now, hasTime).value.Local?
  }

  // -------------------------------------------------------------------------
  // A system of nodes
  // -------------------------------------------------------------------------

  datatype Announce = Announce(sender: Text, priority: nat, time: nat)

  /** Nodes, and every announce ever sent: the network may lose, repeat and reorder them. */
  datatype System = System(nodes: seq<Tracker>, sent: set<Announce>)

  datatype Step =
    | Emit(node: nat, now: nat, hasTime: bool, time: nat)
    | Deliver(node: nat, announce: Announce, at: nat)
    | Refresh(node: nat, at: nat)

  function Next(s: System, step: Step): System
  {
    if step.node >= |s.nodes| then s
    else
      var t := s.nodes[step.node];
      match step
      case Emit(_, now, hasTime, time) =>
        (match AnnouncePriority(t, now, hasTime)
         case Some(p) => s.(sent := s.sent + {Announce(t.id, p, time)})
         case None => s)
      case Deliver(i, a, at) =>
        if a in s.sent then s.(nodes := s.nodes[i := Announced(t, Remote(a.sender, a.priority, at, a.time))]) else s
      case Refresh(i, at) => s.(nodes := s.nodes[i := Refreshed(t, at)])
  }

  /** No node with this ID is configured with a better priority. */
  ghost predicate NotAbove(nodes: seq<Tracker>, sender: Text, priority: nat)
  {
    forall i :: 0 <= i < |nodes| && nodes[i].id == sender ==> priority <= nodes[i].cfg.priority
  }

  ghost predicate StoredNotAbove(nodes: seq<Tracker>, t: Tracker)
  {
    forall r :: r in t.sources ==> NotAbove(nodes, r.sender, r.priority)
  }

  ghost predicate Inv(s: System)
  {
    && (forall i, j :: 0 <= i < j < |s.nodes| ==> s.nodes[i].id != s.nodes[j].id)
    && (forall a :: a in s.sent ==> NotAbove(s.nodes, a.sender, a.priority))
    && (forall i :: 0 <= i < |s.nodes| ==> StoredNotAbove(s.nodes, s.nodes[i]) && Listed(s.nodes[i].sources))
  }

  /** Distinct IDs, any configurations, nothing heard and nothing sent yet. */
  ghost predicate Start(s: System)
  {
    && (forall i, j :: 0 <= i < j < |s.nodes| ==> s.nodes[i].id != s.nodes[j].id)
    && s.sent == {}
    && (forall i :: 0 <= i < |s.nodes| ==> s.nodes[i].sources == [])
  }

  lemma {:induction false} SameConfigs(nodes: seq<Tracker>, i: nat, t: Tracker, sender: Text, priority: nat)
    requires i < |nodes| && t.id == nodes[i].id && t.cfg == nodes[i].cfg
    ensures NotAbove(nodes[i := t], sender, priority) <==> NotAbove(nodes, sender, priority)
  {
    var after := nodes[i := t];
    assert forall k :: 0 <= k < |nodes| ==> after[k].id == nodes[k].id && after[k].cfg == nodes[k].cfg;
  }

  /** Replacing one node's knowledge keeps the invariant if what it knows is not above. */
  lemma {:induction false} UpdateKeepsInv(s: System, i: nat, t: Tracker)
    requires Inv(s) && i < |s.nodes| && t.id == s.nodes[i].id && t.cfg == s.nodes[i].cfg
    requires StoredNotAbove(s.nodes, t) && Listed(t.sources)
    ensures Inv(s.(nodes := s.nodes[i := t]))
  {
    hide NotAbove, Listed;
    var after := s.nodes[i := t];
    forall a | a in s.sent ensures NotAbove(after, a.sender, a.priority) {
      SameConfigs(s.nodes, i, t, a.sender, a.priority);
    }
    forall k | 0 <= k < |after| ensures StoredNotAbove(after, after[k]) {
      forall r | r in after[k].sources ensures NotAbove(after, r.sender, r.priority) {
        assert StoredNotAbove(s.nodes, s.nodes[k]);
        SameConfigs(s.nodes, i, t, r.sender, r.priority);
      }
    }
  }

  lemma {:induction false} EmitKeepsInv(s: System, i: nat, now: nat, hasTime: bool, time: nat)
    requires Inv(s) && i < |s.nodes|
    ensures Inv(Next(s, Emit(i, now, hasTime, time)))
  {
    hide AnnouncePriority, StoredNotAbove, Listed;
    var t := s.nodes[i];
    AnnounceAtMostConfigured(t, now, hasTime);
    if AnnouncePriority(t, now, hasTime).Some? {
      var p := AnnouncePriority(t, now, hasTime).value;
      forall k | 0 <= k < |s.nodes| && s.nodes[k].id == t.id ensures p <= s.nodes[k].cfg.priority {
        assert k == i;
      }
      assert NotAbove(s.nodes, t.id, p);
    }
  }

  lemma {:induction false} DeliverKeepsInv(s: System, i: nat, a: Announce, at: nat)
    requires Inv(s) && i < |s.nodes|
    ensures Inv(Next(s, Deliver(i, a, at)))
  {
    if a in s.sent {
      var t, r := s.nodes[i], Remote(a.sender, a.priority, at, a.time);
      var u := Announced(t, r);
      hide NotAbove, Best, Listed;
      forall x | x in u.sources ensures NotAbove(s.nodes, x.sender, x.priority) {
        assert StoredNotAbove(s.nodes, t);
        StoredElement(t.sources, r, x);
      }
      StoredListed(t.sources, r);
      UpdateKeepsInv(s, i, u);
    }
  }

  lemma {:induction false} RefreshKeepsInv(s: System, i: nat, at: nat)
    requires Inv(s) && i < |s.nodes|
    ensures Inv(Next(s, Refresh(i, at)))
  {
    hide NotAbove, Best, Listed;
    var t := s.nodes[i];
    var u := Refreshed(t, at);
    forall x | x in u.sources ensures NotAbove(s.nodes, x.sender, x.priority) {
      assert StoredNotAbove(s.nodes, t);
      ActiveElement(t.sources, at, t.cfg.timeoutMs, x);
    }
    ActiveListed(t.sources, at, t.cfg.timeoutMs);
    UpdateKeepsInv(s, i, u);
  }

  lemma {:induction false} NextKeepsInv(s: System, step: Step)
    requires Inv(s)
    ensures Inv(Next(s, step)) && |Next(s, step).nodes| == |s.nodes|
  {
    hide Inv, AnnouncePriority, Announced, Refreshed;
    if step.node < |s.nodes| {
      match step
      case Emit(i, now, hasTime, time) => EmitKeepsInv(s, i, now, hasTime, time);
      case Deliver(i, a, at) => DeliverKeepsInv(s, i, a, at);
      case Refresh(i, at) => RefreshKeepsInv(s, i, at);
    }
  }

  function Run(s: System, steps: seq<Step>): System
    decreases |steps|
  {
    if steps == [] then s else Run(Next(s, steps[0]), steps[1..])
  }

  lemma {:induction false} RunKeepsInv(s: System, steps: seq<Step>)
    requires Inv(s)
    ensures Inv(Run(s, steps)) && |Run(s, steps).nodes| == |s.nodes|
    decreases |steps|
  {
    hide Inv, Next;
    if steps != [] {
      NextKeepsInv(s, steps[0]);
      RunKeepsInv(Next(s, steps[0]), steps[1..]);
    }
  }

  /** Node `t` holds an announce from `sender` that is still active. */
  ghost predicate Hears(t: Tracker, sender: Text, now: nat)
  {
    exists r :: r in t.sources && r.sender == sender && SourceActive(r, now, t.cfg.timeoutMs)
  }

  /** A node that leads beats the configured priority of every node it hears. */
  lemma {:induction false} LeaderBeatsHeard(s: System, i: nat, j: nat, now: nat, hasTime: bool)
    requires Inv(s) && i < |s.nodes| && j < |s.nodes|
    requires Hears(s.nodes[i], s.nodes[j].id, now) && LeadsLocally(s.nodes[i], now, hasTime)
    ensures Beats(s.nodes[i].cfg.priority, s.nodes[i].id, s.nodes[j].cfg.priority, s.nodes[j].id)
  {
    var t := s.nodes[i];
    LocalMeaning(t, now, hasTime);
    var r :| r in t.sources && r.sender == s.nodes[j].id && SourceActive(r, now, t.cfg.timeoutMs);
    assert StoredNotAbove(s.nodes, t);
    assert NotAbove(s.nodes, r.sender, r.priority);
  }

  lemma {:induction false} StartHasInv(s: System)
    requires Start(s)
    ensures Inv(s)
  {
  }

  /**
    In every run from a fresh system, two nodes that each hear the other never both lead, whatever
    their roles, priorities and clocks.
   */
  lemma {:induction false} AtMostOneLeader(
    start: System, steps: seq<Step>, i: nat, j: nat, nowI: nat, nowJ: nat, timeI: bool, timeJ: bool)
    requires Start(start) && i < |start.nodes| && j < |start.nodes| && i != j
    ensures var s := Run(start, steps);
            && |s.nodes| == |start.nodes|
            && (Hears(s.nodes[i], s.nodes[j].id, nowI) && Hears(s.nodes[j], s.nodes[i].id, nowJ) ==>
                  !(LeadsLocally(s.nodes[i], nowI, timeI) && LeadsLocally(s.nodes[j], nowJ, timeJ)))
  {
    hide Inv, Lead, Hears, LeadsLocally, Run;
    StartHasInv(start);
    RunKeepsInv(start, steps);
    var s := Run(start, steps);
    if Hears(s.nodes[i], s.nodes[j].id, nowI) && Hears(s.nodes[j], s.nodes[i].id, nowJ)
       && LeadsLocally(s.nodes[i], nowI, timeI) && LeadsLocally(s.nodes[j], nowJ, timeJ) {
      LeaderBeatsHeard(s, i, j, nowI, timeI);
      LeaderBeatsHeard(s, j, i, nowJ, timeJ);
      var a, b := s.nodes[i], s.nodes[j];
      BeatsOrder(a.cfg.priority, a.id, b.cfg.priority, b.id, a.cfg.priority, a.id);
    }
  }

  // -------------------------------------------------------------------------
  // What is said and what is known
  // -------------------------------------------------------------------------

  /** Only a leader puts an announce on the network: its name, what it advertises, and its time. */
  lemma {:induction false} EmitExactly(s: System, i: nat, now: nat, hasTime: bool, time: nat)
    requires i < |s.nodes|
    ensures var v := Next(s, Emit(i, now, hasTime, time));
            var t := s.nodes[i];
            var tie := exists r :: HeardLately(t, r, now) && r.priority == t.cfg.priority;
            var q := if tie && t.cfg.priority > 0 then t.cfg.priority - 1 else t.cfg.priority;
            && v.nodes == s.nodes
            && v.sent == (if LeadsLocally(t, now, hasTime) then s.sent + {Announce(t.id, q, time)} else s.sent)
  {
    hide AnnouncePriority, LeadsLocally, HeardLately;
    AnnounceExactly(s.nodes[i], now, hasTime);
  }

  lemma {:induction false} RunSnoc(s: System, steps: seq<Step>, step: Step)
    ensures Run(s, steps + [step]) == Next(Run(s, steps), step)
    decreases |steps|
  {
    hide Next;
    if steps == [] {
      assert ([] + [step])[1..] == [];
      assert Run(Next(s, step), []) == Next(s, step);
      assert [] + [step] == [step];
    } else {
      assert (steps + [step])[1..] == steps[1..] + [step];
      RunSnoc(Next(s, steps[0]), steps[1..], step);
    }
  }

  /**
    What node `i` last heard from `sender`: the latest announce that was delivered to it, unless it is the
    node's own, or a later refresh found it older than the timeout.
   */
  function LastHeard(start: System, steps: seq<Step>, i: nat, sender: Text): Option<Remote>
    requires i < |start.nodes|
    decreases |steps|
  {
    if steps == [] then None
    else
      var front, last := steps[..|steps| - 1], steps[|steps| - 1];
      var earlier := LastHeard(start, front, i, sender);
      if last.node != i then earlier
      else match last
        case Deliver(_, a, at) =>
          if a.sender == sender && sender != start.nodes[i].id && a in Run(start, front).sent
          then Some(Remote(sender, a.priority, at, a.time)) else earlier
        case Refresh(_, at) =>
          if earlier.Some? && at > earlier.value.lastAnnounce + start.nodes[i].cfg.timeoutMs then None else earlier
        case Emit(_, _, _, _) => earlier
  }

  lemma {:induction false} NextKeepsNames(s: System, step: Step, i: nat)
    requires i < |s.nodes|
    ensures var v := Next(s, step);
            && |v.nodes| == |s.nodes| && v.nodes[i].id == s.nodes[i].id && v.nodes[i].cfg == s.nodes[i].cfg
            && (step.node != i || step.Emit? ==> v.nodes[i].sources == s.nodes[i].sources)
  {
    hide AnnouncePriority, Best, Active, Stored;
  }

  lemma {:induction false} RunKeepsNames(s: System, steps: seq<Step>, i: nat)
    requires i < |s.nodes|
    ensures var v := Run(s, steps);
            |v.nodes| == |s.nodes| && v.nodes[i].id == s.nodes[i].id && v.nodes[i].cfg == s.nodes[i].cfg
    decreases |steps|
  {
    if steps != [] {
      hide Next;
      NextKeepsNames(s, steps[0], i);
      RunKeepsNames(Next(s, steps[0]), steps[1..], i);
    }
  }

  /** What one step does to what a node knows of one sender. */
  lemma {:induction false} KnownStep(s: System, step: Step, i: nat, r: Remote)
    requires i < |s.nodes| && step.node == i && Listed(s.nodes[i].sources)
    ensures var t, v := s.nodes[i], Next(s, step);
            && |v.nodes| == |s.nodes|
            && (r in v.nodes[i].sources <==>
                  match step
                  case Emit(_, _, _, _) => r in t.sources
                  case Refresh(_, at) => r in t.sources && at <= r.lastAnnounce + t.cfg.timeoutMs
                  case Deliver(_, a, at) =>
                    if a in s.sent && a.sender != t.id && a.sender == r.sender
                    then r == Remote(a.sender, a.priority, at, a.time) else r in t.sources)
  {
    hide AnnouncePriority, Best, Listed, Stored, Active;
    var t := s.nodes[i];
    match step
    case Emit(_, _, _, _) =>
    case Refresh(_, at) => ActiveElement(t.sources, at, t.cfg.timeoutMs, r);
    case Deliver(_, a, at) => StoredMeaning(t.sources, Remote(a.sender, a.priority, at, a.time), r);
  }

  /**
    A node's list of sources is a summary of the run: it holds of every sender exactly what the node last heard from
    it, and nothing of itself.
   */
  lemma {:induction false} SourcesAreLastHeard(start: System, steps: seq<Step>, i: nat, r: Remote)
    requires Start(start) && i < |start.nodes|
    ensures var s := Run(start, steps);
            && |s.nodes| == |start.nodes|
            && (r in s.nodes[i].sources <==> LastHeard(start, steps, i, r.sender) == Some(r))
            && (r in s.nodes[i].sources ==> r.sender != s.nodes[i].id)
    decreases |steps|
  {
    if steps != [] {
      hide Inv, Next, Start, Run;
      var front, last := steps[..|steps| - 1], steps[|steps| - 1];
      assert steps == front + [last];
      RunSnoc(start, front, last);
      SourcesAreLastHeard(start, front, i, r);
      var s := Run(start, front);
      StartHasInv(start);
      RunKeepsInv(start, front);
      RunKeepsNames(start, front, i);
      NextKeepsNames(s, last, i);
      KnowledgeSorted(s, i);
      if last.node == i {
        KnownStep(s, last, i, r);
        OthersHeard(start, front, i, r);
      }
    }
  }

  lemma {:induction false} KnowledgeSorted(s: System, i: nat)
    requires Inv(s) && i < |s.nodes|
    ensures Listed(s.nodes[i].sources)
  {
  }

  lemma {:induction false} OthersHeard(start: System, steps: seq<Step>, i: nat, r: Remote)
    requires i < |start.nodes|
    ensures var h := LastHeard(start, steps, i, r.sender);
            h.Some? ==> h.value.sender == r.sender && r.sender != start.nodes[i].id
    decreases |steps|
  {
    hide Run;
    if steps != [] {
      OthersHeard(start, steps[..|steps| - 1], i, r);
    }
  }

  /**
    What a node has selected is fixed by its last delivery or refresh: at that time it is somebody heard lately whom
    nobody heard lately wins against, and nobody only if nobody was heard lately. Nothing else changes it.
   */
  lemma {:induction false} SelectionExactly(s: System, step: Step, i: nat)
    requires i < |s.nodes|
    ensures var t, v := s.nodes[i], Next(s, step);
            && |v.nodes| == |s.nodes|
            && var u := v.nodes[i];
            if step.node == i && (step.Refresh? || (step.Deliver? && step.announce in s.sent
                                                    && step.announce.sender != t.id)) then
              && (u.current.None? <==> forall r :: !HeardLately(u, r, step.at))
              && (u.current.Some? ==>
                    exists b: Remote :: b.sender == u.current.value && HeardLately(u, b, step.at)
                                && forall r :: HeardLately(u, r, step.at) ==>
                                     !Wins(r.priority, r.sender, b.priority, b.sender))
            else u.current == t.current
  {
    hide AnnouncePriority, Stored, Active, BestOf, HeardLately;
    var u := Next(s, step).nodes[i];
    if step.node == i && !step.Emit? {
      BestOfActive(u.sources, step.at, u.cfg.timeoutMs);
      forall r ensures HeardLately(u, r, step.at) <==> r in u.sources && SourceActive(r, step.at, u.cfg.timeoutMs) {
        HeardIsActive(u, r, step.at);
      }
    }
  }

  // -------------------------------------------------------------------------
  // The tracker object
  // -------------------------------------------------------------------------

  class TimeSyncTracker {
    const cfg: Config
    const localId: Text
    var sources: seq<Remote>
    var currentSource: Option<Text>

    ghost function Value(): Tracker
      reads this
    {
      Tracker(cfg, localId, sources, currentSource)
    }

    constructor (cfg: Config, localId: Text)
      ensures Value() == Tracker(cfg, localId, [], None)
    {
      this.cfg, this.localId, sources, currentSource := cfg, localId, [], None;
    }

    /** Looks through the active sources for the best one and reports whether the selection changed. */
    method ReselectSource(now: nat) returns (changed: bool)
      modifies this`currentSource
      ensures Value() == Reselected(old(Value()), now)
      ensures changed <==> currentSource != old(currentSource)
      ensures currentSource.None? <==> forall r :: r in sources ==> !SourceActive(r, now, cfg.timeoutMs)
      ensures currentSource.Some? ==> LeadsSources(currentSource.value, sources, now, cfg.timeoutMs)
    {
      var before := currentSource;
      var best: Option<Remote> := None;
      for i := 0 to |sources|
        invariant currentSource == before
        invariant best == BestOf(Active(sources[..i], now, cfg.timeoutMs))
      {
        ActiveSnoc(sources, i, now, cfg.timeoutMs);
        if SourceActive(sources[i], now, cfg.timeoutMs) {
          BestSnoc(Active(sources[..i], now, cfg.timeoutMs), sources[i]);
          if best.None? || Beats(sources[i].priority, sources[i].sender, best.value.priority, best.value.sender) {
            best := Some(sources[i]);
          }
        } else {
          assert Active(sources[..i], now, cfg.timeoutMs) + [] == Active(sources[..i], now, cfg.timeoutMs);
        }
      }
      assert sources[..|sources|] == sources;
      BestOfActive(sources, now, cfg.timeoutMs);
      currentSource := if best.Some? then Some(best.value.sender) else None;
      changed := currentSource != before;
    }

    method Refresh(now: nat) returns (changed: bool)
      modifies this
      ensures Value() == Refreshed(old(Value()), now)
      ensures changed <==> currentSource != old(currentSource)
    {
      sources := Active(sources, now, cfg.timeoutMs);
      changed := ReselectSource(now);
    }

    method HandleAnnounce(sender: Text, priority: nat, time: nat, received: nat) returns (changed: bool)
      modifies this
      ensures Value() == Announced(old(Value()), Remote(sender, priority, received, time))
      ensures changed <==> currentSource != old(currentSource)
    {
      if sender == localId {
        return false;
      }
      sources := Stored(sources, Remote(sender, priority, received, time));
      changed := ReselectSource(received);
    }
  }
}
