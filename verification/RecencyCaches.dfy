/**
  Two bounded caches that forget the packet noted least recently: return routes of reliable packets, and
  the destinations that have acknowledged a packet end to end. Entries can also vanish behind the back of
  the recency queue, which is cleaned up at the next note.
 */
module RecencyCaches {
  import opened Basics
  import opened Wrappers

  /** Packet IDs in the order of their last note, and what is stored for those still present. */
  datatype Cache<V> = Cache(order: seq<nat>, entries: map<nat, V>)

  function AtLeastOne(n: nat): nat { if n == 0 then 1 else n }

  // -------------------------------------------------------------------------
  // The shared bookkeeping
  // -------------------------------------------------------------------------

  /** The queue without `id` and without packets that are no longer stored. */
  function LiveOthers<V>(order: seq<nat>, entries: map<nat, V>, id: nat): seq<nat>
  {
    if |order| == 0 then []
    else (if order[0] in entries && order[0] != id then [order[0]] else []) + LiveOthers(order[1..], entries, id)
  }

  /** Drops the oldest packets until fewer than `cap` are left. */
  function Trimmed<V>(order: seq<nat>, entries: map<nat, V>, cap: nat): Cache<V>
    requires cap >= 1
    decreases |order|
  {
    if |order| < cap then Cache(order, entries)
    else Trimmed(order[1..], entries - {order[0]}, cap)
  }

  /** Makes `id` the most recent packet, forgetting the oldest if there is no room. */
  function Remembered<V>(c: Cache<V>, id: nat, cap: nat): Cache<V>
  {
    var t := Trimmed(LiveOthers(c.order, c.entries, id), c.entries, AtLeastOne(cap));
    Cache(t.order + [id], t.entries)
  }

  // -------------------------------------------------------------------------
  // The two caches
  // -------------------------------------------------------------------------

  /** The side a packet came from. */
  function NoteRoute(c: Cache<nat>, id: nat, side: nat, cap: nat): Cache<nat>
  {
    var r := Remembered(c, id, cap);
    Cache(r.order, r.entries[id := side])
  }

  function WithoutSide(c: Cache<nat>, side: nat): Cache<nat>
  {
    Cache(c.order, map id | id in c.entries && c.entries[id] != side :: c.entries[id])
  }

  /** A full set takes no new senders. */
  function WithSender(known: set<nat>, sender: nat, senderCap: nat): set<nat>
  {
    if |known| < AtLeastOne(senderCap) || sender in known then known + {sender} else known
  }

  /** A sender that has acknowledged a packet. */
  function NoteAck(c: Cache<set<nat>>, id: nat, sender: nat, cap: nat, senderCap: nat): Cache<set<nat>>
  {
    var r := Remembered(c, id, cap);
    Cache(r.order, r.entries[id := WithSender(if id in r.entries then r.entries[id] else {}, sender, senderCap)])
  }

  /** Only senders still active count; packets without any are forgotten. */
  function Reconciled(c: Cache<set<nat>>, active: set<nat>): Cache<set<nat>>
  {
    Cache(c.order, map id | id in c.entries && c.entries[id] * active != {} :: c.entries[id] * active)
  }

  // -------------------------------------------------------------------------
  // What holds of every reachable cache
  // -------------------------------------------------------------------------

  /** Every stored packet is queued, once, and there are at most `cap`. */
  ghost predicate Valid<V>(c: Cache<V>, cap: nat)
  {
    && Distinct(c.order) && |c.order| <= AtLeastOne(cap)
    && forall id :: id in c.entries ==> id in c.order
  }

  lemma {:induction false} LiveOthersMeaning<V>(order: seq<nat>, entries: map<nat, V>, id: nat)
    requires Distinct(order)
    ensures var r := LiveOthers(order, entries, id);
            && Distinct(r) && |r| <= |order|
            && forall x :: x in r <==> x in order && x in entries && x != id
    decreases |order|
  {
    if |order| > 0 {
      assert order == [order[0]] + order[1..];
      LiveOthersMeaning(order[1..], entries, id);
      var rest := LiveOthers(order[1..], entries, id);
      assert order[0] !in order[1..];
    }
  }

  lemma {:induction false} TrimmedMeaning<V>(order: seq<nat>, entries: map<nat, V>, cap: nat) returns (n: nat)
    requires cap >= 1 && Distinct(order)
    ensures n == (if |order| < cap then 0 else |order| + 1 - cap) && n <= |order|
    ensures Trimmed(order, entries, cap).order == order[n..]
    ensures Trimmed(order, entries, cap).entries == entries - Elements(order[..n])
    decreases |order|
  {
    if |order| < cap {
      n := 0;
      assert Elements(order[..n]) == {};
      assert entries - {} == entries;
    } else {
      var m := TrimmedMeaning(order[1..], entries - {order[0]}, cap);
      n := m + 1;
      assert order[..n] == [order[0]] + order[1..][..m];
      assert Elements(order[..n]) == {order[0]} + Elements(order[1..][..m]);
      assert entries - {order[0]} - Elements(order[1..][..m]) == entries - Elements(order[..n]);
    }
  }

  lemma {:induction false} SuffixDistinct(xs: seq<nat>, n: nat)
    requires n <= |xs| && Distinct(xs)
    ensures Distinct(xs[n..])
    ensures forall x :: x in xs[n..] ==> x in xs
    ensures forall x :: x in xs && x !in xs[..n] ==> x in xs[n..]
  {
    assert xs == xs[..n] + xs[n..];
  }

  lemma {:induction false} RememberedParts<V>(c: Cache<V>, id: nat, cap: nat)
    requires Valid(c, cap)
    ensures var r := Remembered(c, id, cap);
            var others := LiveOthers(c.order, c.entries, id);
            && |others| <= AtLeastOne(cap)
            && r.order == (if |others| == AtLeastOne(cap) then others[1..] else others) + [id]
            && r.entries == (if |others| == AtLeastOne(cap) then c.entries - {others[0]} else c.entries)
  {
    var others := LiveOthers(c.order, c.entries, id);
    LiveOthersMeaning(c.order, c.entries, id);
    var n := TrimmedMeaning(others, c.entries, AtLeastOne(cap));
    assert n <= 1;
    if n == 0 {
      assert others[0..] == others;
      assert Elements(others[..0]) == {};
      assert c.entries - {} == c.entries;
    } else {
      assert others[..1] == [others[0]];
      assert Elements([others[0]]) == {others[0]};
    }
  }

  /**
    Noting a packet makes it the most recent one. Another stored packet is forgotten exactly when as many
    others are stored as the cache can hold, and then it is the one noted least recently.
   */
  lemma {:induction false} RememberedMeaning<V>(c: Cache<V>, id: nat, cap: nat)
    requires Valid(c, cap)
    ensures var r := Remembered(c, id, cap);
            var others := LiveOthers(c.order, c.entries, id);
            && Distinct(r.order) && |r.order| <= AtLeastOne(cap)
            && r.order == (if |others| == AtLeastOne(cap) then others[1..] else others) + [id]
            && r.entries == (if |others| == AtLeastOne(cap) then c.entries - {others[0]} else c.entries)
            && (forall x :: x in r.entries ==> x in r.order)
            && (|others| == AtLeastOne(cap) ==> others[0] != id && others[0] in c.entries)
  {
    hide Remembered, LiveOthers, Distinct;
    var others := LiveOthers(c.order, c.entries, id);
    RememberedParts(c, id, cap);
    ValidParts(c, cap);
    LiveOthersMeaning(c.order, c.entries, id);
    if |others| == AtLeastOne(cap) {
      SuffixDistinct(others, 1);
      AppendDistinct(others[1..], id);
      assert others == [others[0]] + others[1..];
    } else {
      AppendDistinct(others, id);
    }
  }

  lemma {:induction false} ValidParts<V>(c: Cache<V>, cap: nat)
    requires Valid(c, cap)
    ensures Distinct(c.order) && forall id :: id in c.entries ==> id in c.order
  {
  }

  lemma {:induction false} AppendDistinct(xs: seq<nat>, x: nat)
    requires Distinct(xs) && x !in xs
    ensures Distinct(xs + [x])
  {
  }

  lemma {:induction false} NoteRouteKeepsValid(c: Cache<nat>, id: nat, side: nat, cap: nat)
    requires Valid(c, cap)
    ensures Valid(NoteRoute(c, id, side, cap), cap)
  {
    hide Remembered, LiveOthers, Distinct;
    RememberedMeaning(c, id, cap);
  }

  lemma {:induction false} RemovalsKeepValid(c: Cache<nat>, side: nat, d: Cache<set<nat>>, active: set<nat>, cap: nat)
    ensures Valid(c, cap) ==> Valid(WithoutSide(c, side), cap)
    ensures Valid(d, cap) ==> Valid(Reconciled(d, active), cap)
  {
    hide Distinct;
  }

  /** A stored acknowledgement set is never empty and never above its own limit. */
  ghost predicate ValidAcks(c: Cache<set<nat>>, cap: nat, senderCap: nat)
  {
    Valid(c, cap) && forall id :: id in c.entries ==> 0 < |c.entries[id]| <= AtLeastOne(senderCap)
  }

  lemma {:induction false} NoteAckKeepsValid(c: Cache<set<nat>>, id: nat, sender: nat, cap: nat, senderCap: nat)
    requires ValidAcks(c, cap, senderCap)
    ensures ValidAcks(NoteAck(c, id, sender, cap, senderCap), cap, senderCap)
  {
    hide Remembered, LiveOthers, Distinct;
    RememberedMeaning(c, id, cap);
    var r := Remembered(c, id, cap);
    var known := if id in r.entries then r.entries[id] else {};
    if sender in known {
      assert known + {sender} == known;
    }
  }

  lemma {:induction false} ReconcileKeepsValid(c: Cache<set<nat>>, active: set<nat>, cap: nat, senderCap: nat)
    requires ValidAcks(c, cap, senderCap)
    ensures ValidAcks(Reconciled(c, active), cap, senderCap)
  {
    hide Distinct;
    var r := Reconciled(c, active);
    forall id | id in r.entries ensures 0 < |r.entries[id]| <= AtLeastOne(senderCap) {
      SubsetSize(r.entries[id], c.entries[id]);
    }
  }

  lemma {:induction false} SubsetSize(a: set<nat>, b: set<nat>)
    requires a <= b
    ensures |a| <= |b|
  {
    if a != {} {
      var x :| x in a;
      SubsetSize(a - {x}, b - {x});
    }
  }

  /** The map never holds more packets than the cap. */
  lemma {:induction false} SizeBounded<V>(c: Cache<V>, cap: nat)
    requires Valid(c, cap)
    ensures |c.entries| <= AtLeastOne(cap)
  {
    hide Distinct;
    DistinctSize(c.order);
    assert c.entries.Keys <= Elements(c.order);
    SubsetSize(c.entries.Keys, Elements(c.order));
    assert |c.entries| == |c.entries.Keys|;
  }

  // -------------------------------------------------------------------------
  // Recency
  // -------------------------------------------------------------------------

  /** Where in a history a packet was last noted, counted from one; zero if never. `None` is any removal. */
  function LastNote(noted: seq<Option<nat>>, id: nat): (n: nat)
    ensures n <= |noted|
    decreases |noted|
  {
    if |noted| == 0 then 0
    else if noted[|noted| - 1] == Some(id) then |noted|
    else LastNote(noted[..|noted| - 1], id)
  }

  /** The queue is in the order of last notes. */
  ghost predicate ByRecency(order: seq<nat>, noted: seq<Option<nat>>)
  {
    forall i, j :: 0 <= i < j < |order| ==> LastNote(noted, order[i]) < LastNote(noted, order[j])
  }

  lemma {:induction false} LiveOthersByRecency<V>(order: seq<nat>, entries: map<nat, V>, id: nat,
      noted: seq<Option<nat>>)
    requires ByRecency(order, noted) && Distinct(order)
    ensures ByRecency(LiveOthers(order, entries, id), noted)
    decreases |order|
  {
    hide LastNote;
    if |order| > 0 {
      LiveOthersByRecency(order[1..], entries, id, noted);
      LiveOthersMeaning(order[1..], entries, id);
      var rest := LiveOthers(order[1..], entries, id);
      forall j | 0 <= j < |rest| ensures LastNote(noted, order[0]) < LastNote(noted, rest[j]) {
        LaterInOrder(order, noted, rest[j]);
      }
    }
  }

  lemma {:induction false} LaterInOrder(order: seq<nat>, noted: seq<Option<nat>>, x: nat)
    requires ByRecency(order, noted) && |order| > 0 && x in order[1..]
    ensures LastNote(noted, order[0]) < LastNote(noted, x)
  {
    hide LastNote;
    var k :| 0 <= k < |order[1..]| && order[1..][k] == x;
    assert order[k + 1] == x;
  }

  lemma {:induction false} RecencyOfSuffix(order: seq<nat>, n: nat, noted: seq<Option<nat>>)
    requires n <= |order| && ByRecency(order, noted)
    ensures ByRecency(order[n..], noted)
  {
    hide LastNote;
  }

  /** A packet noted just now comes after all others. */
  lemma {:induction false} RecencyAppended(order: seq<nat>, id: nat, noted: seq<Option<nat>>)
    requires ByRecency(order, noted) && id !in order
    ensures ByRecency(order + [id], noted + [Some(id)])
  {
    var now := noted + [Some(id)];
    assert now[..|now| - 1] == noted;
    forall i, j | 0 <= i < j < |order + [id]| ensures LastNote(now, (order + [id])[i]) < LastNote(now,
        (order + [id])[j]) {
      var x := order[i];
      assert LastNote(now, x) == LastNote(noted, x);
      if j < |order| {
        assert LastNote(now, order[j]) == LastNote(noted, order[j]);
      }
    }
  }

  lemma {:induction false} RememberedByRecency<V>(c: Cache<V>, id: nat, cap: nat, noted: seq<Option<nat>>)
    requires Valid(c, cap) && ByRecency(c.order, noted)
    ensures ByRecency(Remembered(c, id, cap).order, noted + [Some(id)])
  {
    hide LiveOthers, Remembered, Distinct, ByRecency, LastNote;
    var others := LiveOthers(c.order, c.entries, id);
    LiveOthersMeaning(c.order, c.entries, id);
    LiveOthersByRecency(c.order, c.entries, id, noted);
    RememberedMeaning(c, id, cap);
    var n := if |others| == AtLeastOne(cap) then 1 else 0;
    RecencyOfSuffix(others, n, noted);
    assert others[0..] == others;
    assert forall x :: x in others[n..] ==> x in others;
    RecencyAppended(others[n..], id, noted);
  }

  lemma {:induction false} RemovalByRecency(order: seq<nat>, noted: seq<Option<nat>>)
    requires ByRecency(order, noted)
    ensures ByRecency(order, noted + [None])
  {
    var now := noted + [None];
    assert now[..|now| - 1] == noted;
    assert forall x :: LastNote(now, x) == LastNote(noted, x);
  }

  /**
    A note forgets a stored packet only when the cache is full of packets other than the noted one, and
    then the one whose last note is furthest back.
   */
  lemma {:induction false} EvictedIsLeastRecent<V>(c: Cache<V>, id: nat, cap: nat, noted: seq<Option<nat>>, x: nat,
      y: nat)
    requires Valid(c, cap) && ByRecency(c.order, noted)
    requires x in c.entries && x !in Remembered(c, id, cap).entries
    ensures x != id && |c.entries.Keys - {id}| == AtLeastOne(cap)
    ensures y in c.entries && y != id && y != x ==>
              y in Remembered(c, id, cap).entries && LastNote(noted, x) < LastNote(noted, y)
  {
    hide LiveOthers, Remembered, LastNote;
    var others := LiveOthers(c.order, c.entries, id);
    LiveOthersMeaning(c.order, c.entries, id);
    LiveOthersByRecency(c.order, c.entries, id, noted);
    RememberedMeaning(c, id, cap);
    DistinctSize(others);
    assert Elements(others) == c.entries.Keys - {id};
    if y in c.entries && y != id && y != x {
      assert y in others;
    }
  }

  /**
    What any note does to the stored packets, and which of them it returns as forgotten: none as long as fewer
    others are stored than the cache can hold, and otherwise the one whose last note is furthest back.
   */
  lemma {:induction false} ForgottenExactly<V>(c: Cache<V>, id: nat, cap: nat, noted: seq<Option<nat>>)
      returns (gone: set<nat>)
    requires Valid(c, cap) && ByRecency(c.order, noted)
    ensures gone <= c.entries.Keys - {id}
    ensures |gone| == if |c.entries.Keys - {id}| < AtLeastOne(cap) then 0 else 1
    ensures forall x, y :: x in gone && y in c.entries && y != id && y !in gone ==>
              LastNote(noted, x) < LastNote(noted, y)
    ensures Remembered(c, id, cap).entries == c.entries - gone
  {
    hide LiveOthers, Remembered, LastNote, Valid, Distinct, ByRecency;
    var others := LiveOthers(c.order, c.entries, id);
    RememberedMeaning(c, id, cap);
    OthersAre(c, id, cap);
    gone := if |others| == AtLeastOne(cap) then {others[0]} else {};
    assert c.entries - {} == c.entries;
    forall x, y | x in gone && y in c.entries && y != id && y !in gone
      ensures LastNote(noted, x) < LastNote(noted, y)
    {
      FirstIsOldest(c, id, cap, noted, y);
    }
  }

  /** The other stored packets, each once. */
  lemma {:induction false} OthersAre<V>(c: Cache<V>, id: nat, cap: nat)
    requires Valid(c, cap)
    ensures var others := LiveOthers(c.order, c.entries, id);
            |others| == |c.entries.Keys - {id}| <= AtLeastOne(cap)
  {
    hide LiveOthers;
    var others := LiveOthers(c.order, c.entries, id);
    LiveOthersMeaning(c.order, c.entries, id);
    DistinctSize(others);
    assert Elements(others) == c.entries.Keys - {id};
  }

  lemma {:induction false} FirstIsOldest<V>(c: Cache<V>, id: nat, cap: nat, noted: seq<Option<nat>>, y: nat)
    requires Valid(c, cap) && ByRecency(c.order, noted)
    requires y in c.entries && y != id
    ensures var others := LiveOthers(c.order, c.entries, id);
            && y in others
            && (y != others[0] ==> LastNote(noted, others[0]) < LastNote(noted, y))
  {
    hide LiveOthers, LastNote;
    LiveOthersMeaning(c.order, c.entries, id);
    LiveOthersByRecency(c.order, c.entries, id, noted);
  }

  /** Noting a return route stores the side the packet came from, and leaves the other routes as they are. */
  lemma {:induction false} NoteRouteExactly(c: Cache<nat>, id: nat, side: nat, cap: nat, noted: seq<Option<nat>>)
      returns (gone: set<nat>)
    requires Valid(c, cap) && ByRecency(c.order, noted)
    ensures gone <= c.entries.Keys - {id}
    ensures |gone| == if |c.entries.Keys - {id}| < AtLeastOne(cap) then 0 else 1
    ensures forall x, y :: x in gone && y in c.entries && y != id && y !in gone ==>
              LastNote(noted, x) < LastNote(noted, y)
    ensures NoteRoute(c, id, side, cap).entries == (c.entries - gone)[id := side]
  {
    hide LastNote, Remembered, ByRecency, Valid;
    gone := ForgottenExactly(c, id, cap, noted);
  }

  /**
    Noting an acknowledgement adds the sender to what was stored for the packet, unless the set is full without
    it, and leaves the other packets as they are.
   */
  lemma {:induction false} NoteAckExactly(c: Cache<set<nat>>, id: nat, sender: nat, cap: nat, senderCap: nat,
      noted: seq<Option<nat>>) returns (gone: set<nat>)
    requires Valid(c, cap) && ByRecency(c.order, noted)
    ensures gone <= c.entries.Keys - {id}
    ensures |gone| == if |c.entries.Keys - {id}| < AtLeastOne(cap) then 0 else 1
    ensures forall x, y :: x in gone && y in c.entries && y != id && y !in gone ==>
              LastNote(noted, x) < LastNote(noted, y)
    ensures var r := NoteAck(c, id, sender, cap, senderCap).entries;
            var known := if id in c.entries then c.entries[id] else {};
            r == (c.entries - gone)[id := known + (if senderCap > |known| || known == {} then {sender} else {})]
  {
    hide LastNote, Remembered, ByRecency, Valid, WithSender, NoteAck;
    gone := ForgottenExactly(c, id, cap, noted);
    NoteAckOn(c, id, sender, cap, senderCap, gone);
    WithSenderIs(if id in c.entries then c.entries[id] else {}, sender, senderCap);
  }

  lemma {:induction false} NoteAckOn(c: Cache<set<nat>>, id: nat, sender: nat, cap: nat, senderCap: nat, gone: set<nat>)
    requires Remembered(c, id, cap).entries == c.entries - gone && id !in gone
    ensures NoteAck(c, id, sender, cap, senderCap).entries
            == (c.entries - gone)[id := WithSender(if id in c.entries then c.entries[id] else {}, sender, senderCap)]
  {
    hide Remembered, WithSender;
  }

  lemma {:induction false} WithSenderIs(known: set<nat>, sender: nat, senderCap: nat)
    ensures WithSender(known, sender, senderCap)
            == known + (if senderCap > |known| || known == {} then {sender} else {})
  {
    assert sender in known ==> known + {sender} == known;
    assert known + {} == known;
    assert known != {} ==> |known| > 0;
  }

  // -------------------------------------------------------------------------
  // Runs
  // -------------------------------------------------------------------------

  datatype RouteOp = NoteSide(id: nat, side: nat) | RemoveSide(side: nat)

  datatype AckOp = NoteSender(id: nat, sender: nat) | Reconcile(active: set<nat>)

  function RunRoutes(ops: seq<RouteOp>, cap: nat): Cache<nat>
    decreases |ops|
  {
    if |ops| == 0 then Cache([], map[])
    else
      var before := RunRoutes(ops[..|ops| - 1], cap);
      match ops[|ops| - 1]
      case NoteSide(id, side) => NoteRoute(before, id, side, cap)
      case RemoveSide(side) => WithoutSide(before, side)
  }

  function RunAcks(ops: seq<AckOp>, cap: nat, senderCap: nat): Cache<set<nat>>
    decreases |ops|
  {
    if |ops| == 0 then Cache([], map[])
    else
      var before := RunAcks(ops[..|ops| - 1], cap, senderCap);
      match ops[|ops| - 1]
      case NoteSender(id, sender) => NoteAck(before, id, sender, cap, senderCap)
      case Reconcile(active) => Reconciled(before, active)
  }

  function NotedSides(ops: seq<RouteOp>): seq<Option<nat>>
  {
    seq(|ops|, i requires 0 <= i < |ops| => if ops[i].NoteSide? then Some(ops[i].id) else None)
  }

  function NotedSenders(ops: seq<AckOp>): seq<Option<nat>>
  {
    seq(|ops|, i requires 0 <= i < |ops| => if ops[i].NoteSender? then Some(ops[i].id) else None)
  }

  /** After any run the return-route cache is valid and its queue sorted by recency. */
  lemma {:induction false} RoutesKeepRecency(ops: seq<RouteOp>, cap: nat)
    ensures var c := RunRoutes(ops, cap); Valid(c, cap) && ByRecency(c.order, NotedSides(ops))
    decreases |ops|
  {
    if |ops| > 0 {
      hide Distinct, LiveOthers, Remembered, ByRecency;
      var earlier, last := ops[..|ops| - 1], ops[|ops| - 1];
      RoutesKeepRecency(earlier, cap);
      var before := RunRoutes(earlier, cap);
      if last.NoteSide? {
        assert NotedSides(ops) == NotedSides(earlier) + [Some(last.id)];
        NoteRouteKeepsValid(before, last.id, last.side, cap);
        RememberedByRecency(before, last.id, cap, NotedSides(earlier));
      } else {
        assert NotedSides(ops) == NotedSides(earlier) + [None];
        RemovalsKeepValid(before, last.side, Cache([], map[]), {}, cap);
        RemovalByRecency(before.order, NotedSides(earlier));
      }
    }
  }

  /** And so is the acknowledgement cache, whose sender sets moreover stay nonempty and within their limit. */
  lemma {:induction false} AcksKeepRecency(ops: seq<AckOp>, cap: nat, senderCap: nat)
    ensures var c := RunAcks(ops, cap, senderCap); ValidAcks(c, cap, senderCap) && ByRecency(c.order, NotedSenders(ops))
    decreases |ops|
  {
    if |ops| > 0 {
      hide Distinct, LiveOthers, Remembered, ByRecency;
      var earlier, last := ops[..|ops| - 1], ops[|ops| - 1];
      AcksKeepRecency(earlier, cap, senderCap);
      var before := RunAcks(earlier, cap, senderCap);
      if last.NoteSender? {
        assert NotedSenders(ops) == NotedSenders(earlier) + [Some(last.id)];
        NoteAckKeepsValid(before, last.id, last.sender, cap, senderCap);
        RememberedByRecency(before, last.id, cap, NotedSenders(earlier));
      } else {
        assert NotedSenders(ops) == NotedSenders(earlier) + [None];
        ReconcileKeepsValid(before, last.active, cap, senderCap);
        RemovalByRecency(before.order, NotedSenders(earlier));
      }
    }
  }

  /** The side of the last note of `id`, unless that side was removed since. */
  function LastSide(ops: seq<RouteOp>, id: nat): Option<nat>
    decreases |ops|
  {
    if |ops| == 0 then None
    else
      var earlier := LastSide(ops[..|ops| - 1], id);
      match ops[|ops| - 1]
      case NoteSide(noted, side) => if noted == id then Some(side) else earlier
      case RemoveSide(side) => if earlier == Some(side) then None else earlier
  }

  /** A stored return route is the side the packet was last noted with, and that side is still there. */
  lemma {:induction false} StoredRouteIsLast(ops: seq<RouteOp>, cap: nat, id: nat)
    ensures var c := RunRoutes(ops, cap); id in c.entries ==> LastSide(ops, id) == Some(c.entries[id])
    decreases |ops|
  {
    if |ops| > 0 {
      hide Valid, Remembered, ByRecency, LastNote;
      var earlier, last := ops[..|ops| - 1], ops[|ops| - 1];
      StoredRouteIsLast(earlier, cap, id);
      RoutesKeepRecency(earlier, cap);
      if last.NoteSide? {
        var gone := NoteRouteExactly(RunRoutes(earlier, cap), last.id, last.side, cap, NotedSides(earlier));
      }
    }
  }

  /** `sender` was noted for `id`, and every reconciliation since has found it active. */
  ghost predicate StillAcked(ops: seq<AckOp>, id: nat, sender: nat)
    decreases |ops|
  {
    |ops| > 0
    && match ops[|ops| - 1]
       case NoteSender(n, s) => (n == id && s == sender) || StillAcked(ops[..|ops| - 1], id, sender)
       case Reconcile(active) => sender in active && StillAcked(ops[..|ops| - 1], id, sender)
  }

  /** A sender that counts as having acknowledged a packet has done so, and was active at every later check. */
  lemma {:induction false} StoredAcksAreReal(ops: seq<AckOp>, cap: nat, senderCap: nat, id: nat, sender: nat)
    ensures var c := RunAcks(ops, cap, senderCap);
            id in c.entries && sender in c.entries[id] ==> StillAcked(ops, id, sender)
    decreases |ops|
  {
    if |ops| > 0 {
      hide Valid, Remembered, ByRecency, LastNote;
      var earlier, last := ops[..|ops| - 1], ops[|ops| - 1];
      StoredAcksAreReal(earlier, cap, senderCap, id, sender);
      AcksKeepRecency(earlier, cap, senderCap);
      if last.NoteSender? {
        var gone := NoteAckExactly(RunAcks(earlier, cap, senderCap), last.id, last.sender, cap, senderCap,
                                   NotedSenders(earlier));
      }
    }
  }

  // -------------------------------------------------------------------------
  // The caches in place
  // -------------------------------------------------------------------------

  class RecencyCache<V(==)> {
    var order: seq<nat>
    var entries: map<nat, V>
    const cap: nat

    ghost function Value(): Cache<V>
      reads this
    {
      Cache(order, entries)
    }

    constructor (maxEntries: nat)
      ensures Value() == Cache([], map[]) && cap == AtLeastOne(maxEntries)
    {
      order, entries, cap := [], map[], AtLeastOne(maxEntries);
    }

    method Remember(id: nat)
      requires cap >= 1
      modifies this
      ensures Value() == Remembered(old(Value()), id, cap)
    {
      var kept: seq<nat> := [];
      var rest := order;
      while |rest| > 0
        invariant kept + LiveOthers(rest, entries, id) == LiveOthers(old(order), old(entries), id)
        invariant entries == old(entries)
        decreases |rest|
      {
        ghost var behind := LiveOthers(rest[1..], entries, id);
        if rest[0] in entries && rest[0] != id {
          assert kept + ([rest[0]] + behind) == (kept + [rest[0]]) + behind;
          kept := kept + [rest[0]];
        } else {
          assert [] + behind == behind;
        }
        rest := rest[1..];
      }
      assert kept + [] == kept;
      order := kept;
      while |order| >= cap
        invariant Trimmed(order, entries, cap) == Trimmed(kept, old(entries), cap)
        decreases |order|
      {
        entries := entries - {order[0]};
        order := order[1..];
      }
      order := order + [id];
    }
  }

  method NoteReliableReturnRoute(c: RecencyCache<nat>, side: nat, id: nat)
    requires c.cap >= 1
    modifies c
    ensures c.Value() == NoteRoute(old(c.Value()), id, side, c.cap)
  {
    c.Remember(id);
    c.entries := c.entries[id := side];
  }

  /** Looks at every stored route and drops those that lead to the side. */
  method ForgetSide(c: RecencyCache<nat>, side: nat)
    modifies c
    ensures c.Value() == WithoutSide(old(c.Value()), side)
    ensures c.order == old(c.order)
    ensures forall id :: id in c.entries <==> id in old(c.entries) && old(c.entries)[id] != side
  {
    ghost var all := c.entries;
    var ids := c.entries.Keys;
    while ids != {}
      invariant c.order == old(c.order) && ids <= all.Keys
      invariant c.entries == map id | id in all && (id in ids || all[id] != side) :: all[id]
      decreases ids
    {
      var id :| id in ids;
      if c.entries[id] == side {
        c.entries := c.entries - {id};
      }
      ids := ids - {id};
    }
  }

  method NoteEndToEndAcked(c: RecencyCache<set<nat>>, id: nat, sender: nat, senderCap: nat)
    requires c.cap >= 1
    modifies c
    ensures c.Value() == NoteAck(old(c.Value()), id, sender, c.cap, senderCap)
  {
    c.Remember(id);
    var known := if id in c.entries then c.entries[id] else {};
    if |known| < AtLeastOne(senderCap) || sender in known {
      known := known + {sender};
    }
    c.entries := c.entries[id := known];
  }

  method KeepActive(acked: set<nat>, active: set<nat>) returns (kept: set<nat>)
    ensures kept == acked * active
  {
    kept := acked;
    var senders := acked;
    while senders != {}
      invariant senders <= acked && kept == senders + acked * active
      decreases senders
    {
      var sender :| sender in senders;
      senders := senders - {sender};
      if sender !in active {
        kept := kept - {sender};
      }
    }
  }

  /** Looks at every stored set, keeps its active senders and drops it if none is left. */
  method ReconcileEndToEndAcked(c: RecencyCache<set<nat>>, active: set<nat>)
    modifies c
    ensures c.Value() == Reconciled(old(c.Value()), active)
    ensures c.order == old(c.order)
    ensures forall id, sender :: id in c.entries && sender in c.entries[id] <==>
              id in old(c.entries) && sender in old(c.entries)[id] && sender in active
  {
    ghost var all := c.entries;
    var ids := c.entries.Keys;
    while ids != {}
      invariant c.order == old(c.order) && ids <= all.Keys
      invariant forall id :: id in c.entries <==> id in all && (id in ids || all[id] * active != {})
      invariant forall id :: id in c.entries ==> c.entries[id] == if id in ids then all[id] else all[id] * active
      decreases ids
    {
      var id :| id in ids;
      var kept := KeepActive(c.entries[id], active);
      ids := ids - {id};
      c.entries := if kept == {} then c.entries - {id} else c.entries[id := kept];
    }
    forall id, sender | id in all && sender in all[id] && sender in active ensures id in c.entries {
      assert sender in all[id] * active;
    }
  }
}
