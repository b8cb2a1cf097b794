/**
  From release to fan-out. Releasing frames advances the stream and acknowledges them; passing them on
  to the other sides is a later stage of the same call. It passes over frames whose ID the relay has noted
  recently, and it can stop early.
 */
module ReliableHandOff {
  import opened Wrappers
  import opened ReliableTypes
  import opened ReliableSender
  import opened ReliableReceiver
  import opened ReliableSystem
  import opened ReliableReplay
  import opened RecentIds
  import LittleEndian
  import PacketHash

  /** How frames are told apart: by packet ID and hop number together. `capacity` IDs are remembered. */
  datatype Filter = Filter(packetId: Bytes -> nat, capacity: nat)

  /**
    What routing makes of a frame: whether it goes out even if it was seen before, because a side it is
    planned for has several announcers, and whether its dispatch succeeds.
   */
  datatype Fanout = Fanout(forwards: Frame -> bool, succeeds: Frame -> bool)

  /** The packet ID, hashed on over the four bytes of the hop number. */
  function Id(fl: Filter, f: Frame): nat
  {
    PacketHash.HashBytes(fl.packetId(f.body), LittleEndian.Le(f.number, 4))
  }

  /** One packet under two numbers that differ in their lowest byte only has two IDs. */
  lemma {:induction false} NumberTells(fl: Filter, body: Bytes, n: nat, m: nat)
    requires fl.packetId(body) < U64_SIZE && n / 256 == m / 256 && n != m
    ensures Id(fl, Frame(n, body)) != Id(fl, Frame(m, body))
  {
    hide PacketHash.HashBytes;
    var x, y := LittleEndian.Le(n, 4), LittleEndian.Le(m, 4);
    assert x == [] + [x[0]] + x[1..] && y == [] + [y[0]] + x[1..];
    PacketHash.OneByteTells(fl.packetId(body), [], x[0], y[0], x[1..]);
  }

  /** The recent IDs once a frame was looked up. */
  function Seen(fl: Filter, recent: seq<nat>, f: Frame): seq<nat>
    requires fl.capacity >= 1
  {
    if Id(fl, f) in recent then recent else Noted(recent, Id(fl, f), fl.capacity)
  }

  /** Frames that reach fan-out one after the other, and the recent IDs afterwards. */
  function PassEach(fl: Filter, recent: seq<nat>, frames: seq<Frame>, fan: Fanout): (seq<Frame>, seq<nat>)
    requires fl.capacity >= 1
    decreases |frames|
  {
    if frames == [] then ([], recent)
    else
      var f, after := frames[0], Seen(fl, recent, frames[0]);
      if Id(fl, f) in recent && !fan.forwards(f) then PassEach(fl, after, frames[1..], fan)
      else if !fan.succeeds(f) then ([], after)
      else
        var (passed, last) := PassEach(fl, after, frames[1..], fan);
        ([f] + passed, last)
  }

  /** A failed ACK ends the call before anything is passed on, and so does a first frame that is passed over. */
  function PassedOn(fl: Filter, recent: seq<nat>, frames: seq<Frame>, ackQueued: bool, fan: Fanout):
      (seq<Frame>, seq<nat>)
    requires fl.capacity >= 1 && frames != []
  {
    if !ackQueued || (Id(fl, frames[0]) in recent && !fan.forwards(frames[0])) then ([], recent)
    else PassEach(fl, recent, frames, fan)
  }

  method PassOnRelease(fl: Filter, recent: seq<nat>, frames: seq<Frame>, ackQueued: bool, fan: Fanout)
    returns (passed: seq<Frame>, after: seq<nat>)
    requires fl.capacity >= 1 && frames != []
    ensures (passed, after) == PassedOn(fl, recent, frames, ackQueued, fan)
  {
    passed, after := [], recent;
    if !ackQueued {
      return;
    }
    var head := frames[0];
    var known := Id(fl, head) in after;
    if known && !fan.forwards(head) {
      return;
    }
    if !known {
      after := Noted(after, Id(fl, head), fl.capacity);
    }
    if !fan.succeeds(head) {
      return;
    }
    ghost var goal := PassEach(fl, recent, frames, fan);
    passed := [head];
    var waiting := frames[1..];
    while waiting != []
      invariant goal == (passed + PassEach(fl, after, waiting, fan).0, PassEach(fl, after, waiting, fan).1)
      decreases |waiting|
    {
      var f := waiting[0];
      ghost var rest := PassEach(fl, Seen(fl, after, f), waiting[1..], fan).0;
      known := Id(fl, f) in after;
      if !known {
        after := Noted(after, Id(fl, f), fl.capacity);
      }
      if !known || fan.forwards(f) {
        if !fan.succeeds(f) {
          assert passed + [] == passed;
          return;
        }
        assert passed + ([f] + rest) == (passed + [f]) + rest;
        passed := passed + [f];
      }
      waiting := waiting[1..];
    }
    assert passed + [] == passed;
  }

  // -------------------------------------------------------------------------
  // When nothing new is lost
  // -------------------------------------------------------------------------

  /** The frame's ID is neither among the recent ones nor that of an earlier frame of the release. */
  ghost predicate New(fl: Filter, recent: seq<nat>, frames: seq<Frame>, i: nat)
    requires i < |frames|
  {
    Id(fl, frames[i]) !in recent && forall k :: 0 <= k < i ==> Id(fl, frames[k]) != Id(fl, frames[i])
  }

  /** The recent IDs when the turn comes to frame `i`. */
  function RecentAt(fl: Filter, recent: seq<nat>, frames: seq<Frame>, i: nat): seq<nat>
    requires fl.capacity >= 1 && i <= |frames|
    decreases i
  {
    if i == 0 then recent else RecentAt(fl, Seen(fl, recent, frames[0]), frames[1..], i - 1)
  }

  predicate Dispatched(fl: Filter, recent: seq<nat>, frames: seq<Frame>, fan: Fanout, i: nat)
    requires fl.capacity >= 1 && i < |frames|
  {
    Id(fl, frames[i]) !in RecentAt(fl, recent, frames, i) || fan.forwards(frames[i])
  }

  /** The dispatch of frame `i`, or of one in front of it, fails. */
  ghost predicate FailsBy(fl: Filter, recent: seq<nat>, frames: seq<Frame>, fan: Fanout, i: nat)
    requires fl.capacity >= 1 && i < |frames|
  {
    exists j :: 0 <= j <= i && Dispatched(fl, recent, frames, fan, j) && !fan.succeeds(frames[j])
  }

  lemma {:induction false} RecentAtElements(fl: Filter, recent: seq<nat>, frames: seq<Frame>, i: nat, x: nat)
    requires fl.capacity >= 1 && i <= |frames| && x in RecentAt(fl, recent, frames, i)
    ensures x in recent || exists k :: 0 <= k < i && Id(fl, frames[k]) == x
    decreases i
  {
    hide Noted;
    if i > 0 {
      var after := Seen(fl, recent, frames[0]);
      RecentAtElements(fl, after, frames[1..], i - 1, x);
      if x in after {
        NotedElements(recent, Id(fl, frames[0]), fl.capacity, x);
      } else {
        var k :| 0 <= k < i - 1 && Id(fl, frames[1..][k]) == x;
        assert frames[k + 1] == frames[1..][k];
      }
    }
  }

  lemma {:induction false} NewIsDispatched(fl: Filter, recent: seq<nat>, frames: seq<Frame>, fan: Fanout, i: nat)
    requires fl.capacity >= 1 && i < |frames| && New(fl, recent, frames, i)
    ensures Dispatched(fl, recent, frames, fan, i)
  {
    hide RecentAt, Id;
    if Id(fl, frames[i]) in RecentAt(fl, recent, frames, i) {
      RecentAtElements(fl, recent, frames, i, Id(fl, frames[i]));
    }
  }

  /**
    Frame `i` is passed on if it is dispatched and no dispatch fails by then; if one fails by then, only
    earlier frames are.
   */
  lemma {:induction false} PassEachAt(fl: Filter, recent: seq<nat>, frames: seq<Frame>, fan: Fanout, i: nat)
    requires fl.capacity >= 1 && i < |frames|
    ensures var passed := PassEach(fl, recent, frames, fan).0;
            && (Dispatched(fl, recent, frames, fan, i) && !FailsBy(fl, recent, frames, fan, i) ==> frames[i] in passed)
            && (FailsBy(fl, recent, frames, fan, i) ==> forall f :: f in passed ==> f in frames[..i])
    decreases |frames|
  {
    hide Seen, Id;
    var after, rest := Seen(fl, recent, frames[0]), frames[1..];
    var passed := PassEach(fl, recent, frames, fan).0;
    if i == 0 {
      assert FailsBy(fl, recent, frames, fan, 0) <==>
          Dispatched(fl, recent, frames, fan, 0) && !fan.succeeds(frames[0]);
    } else {
      PassEachAt(fl, after, rest, fan, i - 1);
      FailsByTail(fl, recent, frames, fan, i);
      assert rest[i - 1] == frames[i];
      assert frames[..i] == [frames[0]] + rest[..i - 1];
    }
  }

  lemma {:induction false} FailsByTail(fl: Filter, recent: seq<nat>, frames: seq<Frame>, fan: Fanout, i: nat)
    requires fl.capacity >= 1 && 0 < i < |frames|
    ensures var after := Seen(fl, recent, frames[0]);
            && (Dispatched(fl, recent, frames, fan, i) <==> Dispatched(fl, after, frames[1..], fan, i - 1))
            && (FailsBy(fl, recent, frames, fan, i) <==>
                  || (Dispatched(fl, recent, frames, fan, 0) && !fan.succeeds(frames[0]))
                  || FailsBy(fl, after, frames[1..], fan, i - 1))
  {
    hide Seen, Id;
    var after, rest := Seen(fl, recent, frames[0]), frames[1..];
    forall j | 1 <= j < |frames|
      ensures Dispatched(fl, recent, frames, fan, j) <==> Dispatched(fl, after, rest, fan, j - 1)
      ensures rest[j - 1] == frames[j]
    {
    }
    if FailsBy(fl, after, rest, fan, i - 1) {
      var j :| 0 <= j <= i - 1 && Dispatched(fl, after, rest, fan, j) && !fan.succeeds(rest[j]);
      assert Dispatched(fl, recent, frames, fan, j + 1);
    }
    if FailsBy(fl, recent, frames, fan, i) {
      var j :| 0 <= j <= i && Dispatched(fl, recent, frames, fan, j) && !fan.succeeds(frames[j]);
      assert j > 0 ==> Dispatched(fl, after, rest, fan, j - 1);
    }
  }

  /**
    Exactly when a release loses nothing new on the way to fan-out: every frame that is new to the relay is
    passed on if and only if there is none, or the ACK was queued, the first frame is not passed over, and no
    dispatch fails up to the last new frame.
   */
  lemma {:induction false} HandOffIsComplete(fl: Filter, recent: seq<nat>, frames: seq<Frame>, ackQueued: bool,
      fan: Fanout)
    requires fl.capacity >= 1 && frames != []
    ensures var passed := PassedOn(fl, recent, frames, ackQueued, fan).0;
            (forall i :: 0 <= i < |frames| && New(fl, recent, frames, i) ==> frames[i] in passed) <==>
            || (forall i :: 0 <= i < |frames| ==> !New(fl, recent, frames, i))
            || (&& ackQueued && (Id(fl, frames[0]) !in recent || fan.forwards(frames[0]))
                && forall i :: 0 <= i < |frames| && New(fl, recent, frames, i) ==> !FailsBy(fl, recent, frames, fan, i))
  {
    hide PassEach, New, FailsBy, Id, Dispatched;
    forall i | 0 <= i < |frames| && New(fl, recent, frames, i)
      ensures frames[i] in PassEach(fl, recent, frames, fan).0 <==> !FailsBy(fl, recent, frames, fan, i)
    {
      NewIsDispatched(fl, recent, frames, fan, i);
      PassEachAt(fl, recent, frames, fan, i);
      NewIsNotEarlier(fl, recent, frames, i);
    }
  }

  lemma {:induction false} NewIsNotEarlier(fl: Filter, recent: seq<nat>, frames: seq<Frame>, i: nat)
    requires i < |frames| && New(fl, recent, frames, i)
    ensures frames[i] !in frames[..i]
  {
    hide Id;
    assert forall k :: 0 <= k < i ==> frames[..i][k] == frames[k] && frames[k] != frames[i];
  }

  // -------------------------------------------------------------------------
  // A relay with several links
  // -------------------------------------------------------------------------

  /** The links over which a relay receives, the recent IDs it keeps for all of them, and what it passed on so far. */
  datatype Relay = Relay(links: seq<World>, recent: seq<nat>, passed: seq<(nat, Frame)>)

  datatype RelayStep = RelayStep(link: nat, step: Step, fan: Fanout)

  function ReleasedBetween(w: World, v: World): seq<Frame>
  {
    if |w.log.released| <= |v.log.released| then v.log.released[|w.log.released|..] else []
  }

  function Tagged(link: nat, frames: seq<Frame>): (r: seq<(nat, Frame)>)
    ensures |r| == |frames| && forall i :: 0 <= i < |frames| ==> r[i] == (link, frames[i])
  {
    seq(|frames|, i requires 0 <= i < |frames| => (link, frames[i]))
  }

  predicate AckQueued(step: Step)
  {
    step.ReceiveData? && step.replied
  }

  /** One step of one ordered link, and the hand-off of what it releases. */
  function RelayNext(r: Relay, fl: Filter, lim: Limits, s: RelayStep): Relay
    requires fl.capacity >= 1
  {
    if s.link >= |r.links| then r
    else
      var v := Next(r.links[s.link], lim, Ordered, s.step);
      var frames := ReleasedBetween(r.links[s.link], v);
      var links := r.links[s.link := v];
      if frames == [] then r.(links := links)
      else
        var (passed, recent) := PassedOn(fl, r.recent, frames, AckQueued(s.step), s.fan);
        Relay(links, recent, r.passed + Tagged(s.link, passed))
  }

  function RunRelay(r: Relay, fl: Filter, lim: Limits, steps: seq<RelayStep>): Relay
    requires fl.capacity >= 1
    decreases |steps|
  {
    if |steps| == 0 then r else RelayNext(RunRelay(r, fl, lim, steps[..|steps| - 1]), fl, lim, steps[|steps| - 1])
  }

  lemma {:induction false} RunPrefix(r: Relay, fl: Filter, lim: Limits, steps: seq<RelayStep>, k: nat)
    requires fl.capacity >= 1 && k < |steps|
    ensures RunRelay(r, fl, lim, steps[..k + 1]) == RelayNext(RunRelay(r, fl, lim, steps[..k]), fl, lim, steps[k])
  {
    hide RelayNext;
    assert steps[..k + 1][..k] == steps[..k];
  }

  // -------------------------------------------------------------------------
  // Within one link
  // -------------------------------------------------------------------------

  function IdsOfFrames(fl: Filter, frames: seq<Frame>): (r: seq<nat>)
    ensures |r| == |frames| && forall i :: 0 <= i < |frames| ==> r[i] == Id(fl, frames[i])
  {
    seq(|frames|, i requires 0 <= i < |frames| => Id(fl, frames[i]))
  }

  /** The newest IDs, as many as are remembered. */
  function Newest(ids: seq<nat>, capacity: nat): seq<nat>
  {
    if |ids| <= capacity then ids else ids[|ids| - capacity..]
  }

  /** No two frames within the reach of the memory have one ID. */
  ghost predicate Apart(fl: Filter, frames: seq<Frame>)
  {
    forall i, j :: 0 <= i < j < |frames| && j - i <= fl.capacity ==> Id(fl, frames[i]) != Id(fl, frames[j])
  }

  lemma {:induction false} NotedNewest(ids: seq<nat>, id: nat, capacity: nat)
    requires capacity >= 1
    ensures Noted(Newest(ids, capacity), id, capacity) == Newest(ids + [id], capacity)
  {
  }

  lemma {:induction false} NewestElement(ids: seq<nat>, capacity: nat, x: nat)
    ensures x in Newest(ids, capacity) <==> exists i :: 0 <= i < |ids| && |ids| - i <= capacity && ids[i] == x
  {
    var r := Newest(ids, capacity);
    var from := |ids| - |r|;
    assert forall i :: from <= i < |ids| ==> ids[i] == r[i - from];
    assert forall i :: 0 <= i < |r| ==> r[i] == ids[i + from];
  }

  /** The next frame is a duplicate exactly if it breaks the distance between equal IDs. */
  lemma {:induction false} DuplicateExactly(fl: Filter, all: seq<Frame>, n: nat)
    requires n < |all| && Apart(fl, all[..n])
    ensures Id(fl, all[n]) in Newest(IdsOfFrames(fl, all[..n]), fl.capacity) <==> !Apart(fl, all[..n + 1])
    ensures !Apart(fl, all[..n + 1]) ==> !Apart(fl, all)
  {
    hide Id, Newest;
    var ids := IdsOfFrames(fl, all[..n]);
    NewestElement(ids, fl.capacity, Id(fl, all[n]));
    assert forall i :: 0 <= i < n ==> ids[i] == Id(fl, all[i]);
    assert forall i :: 0 <= i < n ==> all[..n][i] == all[..n + 1][i] == all[i];
    assert all[..n + 1][n] == all[n];
  }

  lemma {:induction false} PassesAtMost(fl: Filter, recent: seq<nat>, frames: seq<Frame>, fan: Fanout)
    requires fl.capacity >= 1
    ensures |PassEach(fl, recent, frames, fan).0| <= |frames|
    decreases |frames|
  {
    hide Seen, Id;
    if frames != [] {
      PassesAtMost(fl, Seen(fl, recent, frames[0]), frames[1..], fan);
    }
  }

  /** If all frames before the `n`-th were noted, what becomes of the others. */
  lemma {:induction false} PassFrom(fl: Filter, all: seq<Frame>, n: nat, fan: Fanout)
    requires fl.capacity >= 1 && n <= |all| && Apart(fl, all[..n]) && forall f :: fan.succeeds(f)
    ensures var r := PassEach(fl, Newest(IdsOfFrames(fl, all[..n]), fl.capacity), all[n..], fan);
            && (Apart(fl, all) ==> r == (all[n..], Newest(IdsOfFrames(fl, all), fl.capacity)))
            && (!Apart(fl, all) && (forall f :: !fan.forwards(f)) ==> |r.0| < |all| - n)
    decreases |all| - n
  {
    hide Id, Newest, Noted, Apart;
    var recent := Newest(IdsOfFrames(fl, all[..n]), fl.capacity);
    if n == |all| {
      assert all[..n] == all && all[n..] == [];
    } else {
      var f, rest := all[n], all[n + 1..];
      assert all[n..][0] == f && all[n..][1..] == rest;
      DuplicateExactly(fl, all, n);
      PassesAtMost(fl, recent, rest, fan);
      if Apart(fl, all[..n + 1]) {
        NotedNewest(IdsOfFrames(fl, all[..n]), Id(fl, f), fl.capacity);
        assert all[..n + 1] == all[..n] + [f];
        assert IdsOfFrames(fl, all[..n + 1]) == IdsOfFrames(fl, all[..n]) + [Id(fl, f)];
        PassFrom(fl, all, n + 1, fan);
        assert [f] + rest == all[n..];
      }
    }
  }

  /** The step belongs to the one link, its ACK can be queued and its dispatches succeed. */
  ghost predicate Undisturbed(s: RelayStep)
  {
    s.link == 0 && (s.step.ReceiveData? ==> s.step.replied) && forall f :: s.fan.succeeds(f)
  }

  function StepsOf(steps: seq<RelayStep>): seq<Step>
  {
    seq(|steps|, i requires 0 <= i < |steps| => steps[i].step)
  }

  /** Whether everything released was passed on hangs on the distance between equal IDs. */
  ghost predicate PassedByDistance(r: Relay, fl: Filter, never: bool)
  {
    && |r.links| == 1
    && var released := r.links[0].log.released;
       && (Apart(fl, released) ==>
             r.passed == Tagged(0, released) && r.recent == Newest(IdsOfFrames(fl, released), fl.capacity))
       && (never && !Apart(fl, released) ==> |r.passed| < |released|)
  }

  lemma {:induction false} ApartPrefix(fl: Filter, all: seq<Frame>, n: nat)
    requires n <= |all| && Apart(fl, all)
    ensures Apart(fl, all[..n])
  {
    hide Id;
  }

  /** The hand-off of one release. */
  lemma {:induction false} HandOffByDistance(fl: Filter, all: seq<Frame>, n: nat, fan: Fanout)
    requires fl.capacity >= 1 && n < |all| && Apart(fl, all[..n]) && forall f :: fan.succeeds(f)
    ensures var r := PassedOn(fl, Newest(IdsOfFrames(fl, all[..n]), fl.capacity), all[n..], true, fan);
            && (Apart(fl, all) ==> r == (all[n..], Newest(IdsOfFrames(fl, all), fl.capacity)))
            && (!Apart(fl, all) && (forall f :: !fan.forwards(f)) ==> |r.0| < |all| - n)
  {
    hide PassEach, Id, Newest, Apart;
    PassFrom(fl, all, n, fan);
    DuplicateExactly(fl, all, n);
    assert all[n..][0] == all[n];
  }

  lemma {:induction false} PassedAtMost(fl: Filter, recent: seq<nat>, frames: seq<Frame>, ackQueued: bool, fan: Fanout)
    requires fl.capacity >= 1 && frames != []
    ensures |PassedOn(fl, recent, frames, ackQueued, fan).0| <= |frames|
  {
    hide PassEach, Id;
    PassesAtMost(fl, recent, frames, fan);
  }

  lemma {:induction false} TaggedParts(link: nat, all: seq<Frame>, n: nat)
    requires n <= |all|
    ensures Tagged(link, all[..n]) + Tagged(link, all[n..]) == Tagged(link, all)
  {
  }

  lemma {:induction false} OneStepByDistance(r: Relay, fl: Filter, lim: Limits, s: RelayStep, never: bool)
    requires fl.capacity >= 1 && PassedByDistance(r, fl, never) && Undisturbed(s)
    requires never ==> forall f :: !s.fan.forwards(f)
    ensures PassedByDistance(RelayNext(r, fl, lim, s), fl, never)
    ensures RelayNext(r, fl, lim, s).links == [Next(r.links[0], lim, Ordered, s.step)]
  {
    hide PassedOn, Apart, Newest, Id, Next, IdsOfFrames, Noted;
    var w, v := r.links[0], Next(r.links[0], lim, Ordered, s.step);
    StepReleases(w, lim, s.step);
    var n, all := |w.log.released|, v.log.released;
    assert all[..n] == w.log.released;
    if n < |all| {
      assert ReleasedBetween(w, v) == all[n..] && AckQueued(s.step);
      PassedAtMost(fl, r.recent, all[n..], true, s.fan);
      if Apart(fl, w.log.released) {
        HandOffByDistance(fl, all, n, s.fan);
        TaggedParts(0, all, n);
      } else if Apart(fl, all) {
        ApartPrefix(fl, all, n);
      }
    } else {
      assert all == w.log.released && all[n..] == [];
    }
  }

  /** Only an incoming frame releases anything, and a release only appends. */
  lemma {:induction false} StepReleases(w: World, lim: Limits, step: Step)
    ensures w.log.released <= Next(w, lim, Ordered, step).log.released
    ensures !step.ReceiveData? ==> Next(w, lim, Ordered, step).log.released == w.log.released
  {
    hide Receive, Submit, Acked, PartiallyAcked, Requested, TimedOut, Replayed, Scan, AbandonedNow, Copied;
  }

  /**
    A relay that receives over one link passes on everything it releases, in order, as long as its ACKs find
    room, its dispatches succeed, and no two released frames within the reach of its memory have one ID.
   */
  lemma {:induction false} OneLinkPassesAll(fl: Filter, lim: Limits, steps: seq<RelayStep>)
    requires fl.capacity >= 1 && forall i :: 0 <= i < |steps| ==> Undisturbed(steps[i])
    requires Apart(fl, Run(START, lim, Ordered, StepsOf(steps)).log.released)
    ensures var r := RunRelay(Relay([START], [], []), fl, lim, steps);
            && r.links == [Run(START, lim, Ordered, StepsOf(steps))]
            && r.passed == Tagged(0, r.links[0].log.released)
  {
    hide Run, RunRelay, Apart, Newest;
    OneLinkInv(fl, lim, steps, false);
  }

  /** If no duplicate is ever forwarded, that is exactly when it does. */
  lemma {:induction false} OneLinkPassesExactly(fl: Filter, lim: Limits, steps: seq<RelayStep>)
    requires fl.capacity >= 1 && forall i :: 0 <= i < |steps| ==> Undisturbed(steps[i])
    requires forall i :: 0 <= i < |steps| ==> forall f :: !steps[i].fan.forwards(f)
    ensures var r := RunRelay(Relay([START], [], []), fl, lim, steps);
            && r.links == [Run(START, lim, Ordered, StepsOf(steps))]
            && (r.passed == Tagged(0, r.links[0].log.released) <==> Apart(fl, r.links[0].log.released))
  {
    hide Run, RunRelay, Apart, Newest;
    OneLinkInv(fl, lim, steps, true);
  }

  lemma {:induction false} OneLinkInv(fl: Filter, lim: Limits, steps: seq<RelayStep>, never: bool)
    requires fl.capacity >= 1 && forall i :: 0 <= i < |steps| ==> Undisturbed(steps[i])
    requires never ==> forall i :: 0 <= i < |steps| ==> forall f :: !steps[i].fan.forwards(f)
    ensures var r := RunRelay(Relay([START], [], []), fl, lim, steps);
            r.links == [Run(START, lim, Ordered, StepsOf(steps))] && PassedByDistance(r, fl, never)
    decreases |steps|
  {
    hide Next, RelayNext, Undisturbed, Apart, Newest, IdsOfFrames;
    if |steps| > 0 {
      var front, last := steps[..|steps| - 1], steps[|steps| - 1];
      assert StepsOf(steps) == StepsOf(front) + [last.step];
      RunSnoc(START, lim, Ordered, StepsOf(front), last.step);
      OneLinkInv(fl, lim, front, never);
      OneStepByDistance(RunRelay(Relay([START], [], []), fl, lim, front), fl, lim, last, never);
    } else {
      NothingReleased(fl);
    }
  }

  lemma {:induction false} NothingReleased(fl: Filter)
    ensures Tagged(0, []) == [] && Newest(IdsOfFrames(fl, []), fl.capacity) == [] && Apart(fl, [])
  {
  }

  // -------------------------------------------------------------------------
  // Between two links something can be lost
  // -------------------------------------------------------------------------

  /** Frame 1 is released. */
  function OneReleased(a: Bytes): World
  {
    var w := OneSent(a);
    w.(rx := RxState(2, map[]), net := w.net + {Ack(1)}, log := w.log.(released := [Frame(1, a)]))
  }

  /** Frame 2 arrived first and waits. */
  function SecondWaits(a: Bytes, b: Bytes): World
  {
    BothSent(a, b).(rx := RxState(1, map[2 := Frame(2, b)]),
                    net := BothSent(a, b).net + {PartialAck(2), Request(1)})
  }

  /** Frame 1 arrived and both were released. */
  function BothReleased(a: Bytes, b: Bytes): World
  {
    var w := SecondWaits(a, b);
    w.(rx := RxState(3, map[]), net := w.net + {Ack(2)}, log := w.log.(released := [Frame(1, a), Frame(2, b)]))
  }

  lemma {:induction false} ReachOneReleased(lim: Limits, a: Bytes)
    ensures Next(OneSent(a), lim, Ordered, ReceiveData(Frame(1, a), true, {}, true)) == OneReleased(a)
  {
    assert Drain(map[], 2, 1) == Drained([], map[], 2, 1);
    assert [] + [Frame(1, a)] + [] == [Frame(1, a)];
  }

  lemma {:induction false} ReachSecondWaits(lim: Limits, a: Bytes, b: Bytes)
    requires lim.maxPending >= 2
    ensures Next(BothSent(a, b), lim, Ordered, ReceiveData(Frame(2, b), true, {}, true)) == SecondWaits(a, b)
  {
    assert Buffered(FRESH_RX, lim, Frame(2, b), true, {}) == RxState(1, map[2 := Frame(2, b)]);
  }

  lemma {:induction false} ReachBothReleased(lim: Limits, a: Bytes, b: Bytes)
    ensures Next(SecondWaits(a, b), lim, Ordered, ReceiveData(Frame(1, a), true, {}, true)) == BothReleased(a, b)
  {
    var waiting := map[2 := Frame(2, b)];
    assert waiting - {2} == map[];
    assert Drain(waiting, 2, 1) == Drained([Frame(2, b)], map[], 3, 2);
  }

  lemma {:induction false} ReachForgotten(lim: Limits, a: Bytes, b: Bytes)
    ensures var w := Next(BothReleased(a, b), lim, Ordered, ReceiveAck(2));
            w.tx.sent == map[] && w.log.released == [Frame(1, a), Frame(2, b)]
  {
    assert [1, 2][1..] == [2] && [2][1..] == [];
    assert AckedPrefix([1, 2], 2) == 1 + AckedPrefix([2], 2) == 2;
    assert [1, 2][..2] == [1, 2];
  }

  lemma {:induction false} QuietStep(r: Relay, fl: Filter, lim: Limits, s: RelayStep, v: World)
    requires fl.capacity >= 1 && s.link < |r.links| && Next(r.links[s.link], lim, Ordered, s.step) == v
    requires v.log.released == r.links[s.link].log.released
    ensures RelayNext(r, fl, lim, s) == r.(links := r.links[s.link := v])
  {
    hide Next;
  }

  /** The relay has passed on frame 1 of its first link. */
  function FirstPassed(fl: Filter, a: Bytes, second: World): Relay
  {
    Relay([OneReleased(a), second], [Id(fl, Frame(1, a))], [(0, Frame(1, a))])
  }

  lemma {:induction false} PassFirst(fl: Filter, lim: Limits, a: Bytes, fan: Fanout)
    requires fl.capacity >= 1 && fan.succeeds(Frame(1, a))
    ensures RelayNext(Relay([OneSent(a), START], [], []), fl, lim,
            RelayStep(0, ReceiveData(Frame(1, a), true, {}, true), fan))
            == FirstPassed(fl, a, START)
  {
    hide Next;
    var f := Frame(1, a);
    ReachOneReleased(lim, a);
    assert [f][0..] == [f] && [f][1..] == [];
    assert PassEach(fl, [Id(fl, f)], [], fan) == ([], [Id(fl, f)]);
    assert Noted([], Id(fl, f), fl.capacity) == [Id(fl, f)];
    assert PassEach(fl, [], [f], fan) == ([f] + [], [Id(fl, f)]);
    assert ReleasedBetween(OneSent(a), OneReleased(a)) == [f];
    assert [OneSent(a), START][0 := OneReleased(a)] == [OneReleased(a), START];
    assert [] + Tagged(0, [f]) == [(0, f)];
  }

  lemma {:induction false} SkipBoth(fl: Filter, lim: Limits, a: Bytes, b: Bytes, fan: Fanout)
    requires fl.capacity >= 1 && !fan.forwards(Frame(1, a))
    ensures RelayNext(FirstPassed(fl, a, SecondWaits(a, b)), fl, lim,
                      RelayStep(1, ReceiveData(Frame(1, a), true, {}, true), fan))
            == FirstPassed(fl, a, BothReleased(a, b))
  {
    hide Next;
    ReachBothReleased(lim, a, b);
    var r := FirstPassed(fl, a, SecondWaits(a, b));
    assert ReleasedBetween(SecondWaits(a, b), BothReleased(a, b)) == [Frame(1, a), Frame(2, b)];
    assert r.links[1 := BothReleased(a, b)] == [OneReleased(a), BothReleased(a, b)];
    assert r.passed + Tagged(1, []) == r.passed;
  }

  function LossySteps(a: Bytes, b: Bytes, fan: Fanout): seq<RelayStep>
  {
    [RelayStep(0, SubmitFrame(a, 0, true, true), fan), RelayStep(0, ReceiveData(Frame(1, a), true, {}, true), fan),
     RelayStep(1, SubmitFrame(a, 0, true, true), fan), RelayStep(1, SubmitFrame(b, 0, true, true), fan),
     RelayStep(1, ReceiveData(Frame(2, b), true, {}, true), fan),
     RelayStep(1, ReceiveData(Frame(1, a), true, {}, true), fan), RelayStep(1, ReceiveAck(2), fan)]
  }

  lemma {:induction false} LossyRun(fl: Filter, lim: Limits, a: Bytes, b: Bytes, fan: Fanout)
    requires lim.maxPending >= 2 && fl.capacity >= 1
    requires fan.succeeds(Frame(1, a)) && !fan.forwards(Frame(1, a))
    ensures RunRelay(Relay([START, START], [], []), fl, lim, LossySteps(a, b, fan)[..6])
            == FirstPassed(fl, a, BothReleased(a, b))
  {
    hide Next, RelayNext, OneSent, OneReleased, BothSent, SecondWaits, BothReleased, PassedOn, Id;
    var r, steps := Relay([START, START], [], []), LossySteps(a, b, fan);
    forall k: nat | k < 6
      ensures RunRelay(r, fl, lim, steps[..k + 1]) == RelayNext(RunRelay(r, fl, lim, steps[..k]), fl, lim, steps[k])
    {
      RunPrefix(r, fl, lim, steps, k);
    }
    assert RunRelay(r, fl, lim, steps[..0]) == r;
    ReachOneSent(lim, a);
    QuietLogs(a, b);
    QuietStep(r, fl, lim, steps[0], OneSent(a));
    assert RunRelay(r, fl, lim, steps[..1]) == Relay([OneSent(a), START], [], []);
    PassFirst(fl, lim, a, fan);
    assert RunRelay(r, fl, lim, steps[..2]) == FirstPassed(fl, a, START);
    QuietStep(FirstPassed(fl, a, START), fl, lim, steps[2], OneSent(a));
    assert RunRelay(r, fl, lim, steps[..3]) == FirstPassed(fl, a, OneSent(a));
    ReachBothSent(lim, a, b);
    QuietStep(FirstPassed(fl, a, OneSent(a)), fl, lim, steps[3], BothSent(a, b));
    assert RunRelay(r, fl, lim, steps[..4]) == FirstPassed(fl, a, BothSent(a, b));
    ReachSecondWaits(lim, a, b);
    QuietStep(FirstPassed(fl, a, BothSent(a, b)), fl, lim, steps[4], SecondWaits(a, b));
    assert RunRelay(r, fl, lim, steps[..5]) == FirstPassed(fl, a, SecondWaits(a, b));
    SkipBoth(fl, lim, a, b, fan);
  }

  lemma {:induction false} QuietLogs(a: Bytes, b: Bytes)
    ensures START.log.released == OneSent(a).log.released == BothSent(a, b).log.released
            == SecondWaits(a, b).log.released
  {
  }

  /**
    A run in which a frame is released, acknowledged and forgotten by its sender, yet never passed on. The
    relay first handles frame 1 of one link. Another link carries the same packet, also as its frame 1; frame 2
    of that link arrives before it and waits. When frame 1 arrives, both are released, but its ID is a recent
    one, and the call ends there.
   */
  lemma {:induction false} SuppressedHeadLosesFrame(fl: Filter, lim: Limits, a: Bytes, b: Bytes, fan: Fanout)
    requires lim.maxPending >= 2 && fl.capacity >= 1 && Id(fl, Frame(1, a)) != Id(fl, Frame(2, b))
    requires fan.succeeds(Frame(1, a)) && !fan.forwards(Frame(1, a))
    ensures var r := RunRelay(Relay([START, START], [], []), fl, lim, LossySteps(a, b, fan));
            && |r.links| == 2 && r.links[1].log.released == [Frame(1, a), Frame(2, b)] && r.links[1].tx.sent == map[]
            && r.passed == [(0, Frame(1, a))]
            && r.recent == [Id(fl, Frame(1, a))] && New(fl, r.recent, r.links[1].log.released, 1)
  {
    hide Next, RelayNext, OneReleased, RunRelay, Id;
    var steps := LossySteps(a, b, fan);
    LossyRun(fl, lim, a, b, fan);
    RunPrefix(Relay([START, START], [], []), fl, lim, steps, 6);
    assert steps[..7] == steps;
    ReachForgotten(lim, a, b);
    QuietStep(FirstPassed(fl, a, BothReleased(a, b)), fl, lim, steps[6],
              Next(BothReleased(a, b), lim, Ordered, ReceiveAck(2)));
  }
}
