/**
  What a retry is worth. A timeout pass charges a retry to every due frame first and queues the copies
  afterwards, as long as the shared budget admits them; and a frame that is marked as queued without a copy
  is out of reach of every later timeout and request.
 */
module ReliableReplay {
  import opened Basics
  import opened Wrappers
  import opened ReliableTypes
  import opened ReliableSender
  import opened ReliableReceiver
  import opened ReliableSystem

  // -------------------------------------------------------------------------
  // Charges and copies
  // -------------------------------------------------------------------------

  /** `n` is charged a retry, but the pass ends before it comes to the push of its copy, or with it. */
  predicate Uncopied(due: seq<nat>, admitted: Option<nat>, n: nat)
  {
    exists i :: 0 <= i < |due| && due[i] == n && (admitted.None? || admitted.value <= i)
  }

  predicate StepUncopied(w: World, lim: Limits, step: Step, n: nat)
  {
    step.Timeout? && Uncopied(DueAt(w.tx, lim, step.now), step.admitted, n)
  }

  /** Every timeout pass that charges `n` admits pushes past the place of `n` in its requeue list. */
  predicate EveryPassCopies(w: World, lim: Limits, mode: Mode, steps: seq<Step>, n: nat)
    decreases |steps|
  {
    steps == []
    || (!StepUncopied(w, lim, steps[0], n) && EveryPassCopies(Next(w, lim, mode, steps[0]), lim, mode, steps[1..], n))
  }

  /** How many passes of the run charge `n` without a copy. */
  function Shortfalls(w: World, lim: Limits, mode: Mode, steps: seq<Step>, n: nat): nat
    decreases |steps|
  {
    if steps == [] then 0
    else StepShortfall(w, lim, steps[0], n) + Shortfalls(Next(w, lim, mode, steps[0]), lim, mode, steps[1..], n)
  }

  /** Charged retries of a number for which no copy was queued. */
  function Gap(log: Log, n: nat): int
  {
    log.charges[n] as int - log.copies[n] as int
  }

  function StepShortfall(w: World, lim: Limits, step: Step, n: nat): nat
  {
    if StepUncopied(w, lim, step, n) then 1 else 0
  }

  lemma {:induction false} UncopiedMeaning(due: seq<nat>, admitted: Option<nat>, n: nat)
    requires Distinct(due)
    ensures Uncopied(due, admitted, n) <==> n in due && n !in Copied(due, admitted)
  {
    var copied := Copied(due, admitted);
    assert forall i :: 0 <= i < |copied| ==> copied[i] == due[i];
    if n in due {
      var i :| 0 <= i < |due| && due[i] == n;
      assert n in copied <==> i < |copied|;
    }
  }

  /** One step of the run widens the gap between charges and copies of `n` exactly if it leaves `n` uncopied. */
  lemma {:induction false} StepGap(w: World, lim: Limits, mode: Mode, step: Step, n: nat)
    requires Inv(w, lim, mode)
    ensures Gap(Next(w, lim, mode, step).log, n) == Gap(w.log, n) + StepShortfall(w, lim, step, n)
  {
    hide Scan, TimedOut, Uncopied, Copied, TxOk;
    if step.Timeout? {
      var due := DueAt(w.tx, lim, step.now);
      CopiedAt(w, lim, step.now, step.admitted, n);
      DueDistinct(w, lim, step.now);
      UncopiedMeaning(due, step.admitted, n);
    }
  }

  lemma {:induction false} DueDistinct(w: World, lim: Limits, now: nat)
    requires SenderOk(w, lim)
    ensures Distinct(DueAt(w.tx, lim, now))
  {
    ScanRequeueOrder(w.tx, lim, now, w.tx.sentOrder);
  }

  lemma {:induction false} RunGap(w: World, lim: Limits, mode: Mode, steps: seq<Step>, n: nat)
    requires Inv(w, lim, mode) && |Run(w, lim, mode, steps).log.numbered| + 1 < U32_SIZE
    ensures Gap(Run(w, lim, mode, steps).log, n) == Gap(w.log, n) + Shortfalls(w, lim, mode, steps, n)
    ensures EveryPassCopies(w, lim, mode, steps, n) <==> Shortfalls(w, lim, mode, steps, n) == 0
    decreases |steps|
  {
    hide Inv, Next, StepUncopied;
    if steps != [] {
      var v := Next(w, lim, mode, steps[0]);
      RunNumbersGrow(v, lim, mode, steps[1..]);
      NextKeepsInv(w, lim, mode, steps[0]);
      StepGap(w, lim, mode, steps[0], n);
      RunGap(v, lim, mode, steps[1..], n);
    }
  }

  /**
    How many copies a number of charged retries stands for: the charges without the passes that ended before
    the copy was queued. So every charge is a copy exactly when no pass ever ended that early.
   */
  lemma {:induction false} CopiesExactly(lim: Limits, mode: Mode, steps: seq<Step>, n: nat)
    requires |Run(START, lim, mode, steps).log.numbered| + 1 < U32_SIZE
    ensures var log := Run(START, lim, mode, steps).log;
            && log.copies[n] + Shortfalls(START, lim, mode, steps, n) == log.charges[n] <= lim.maxRetries
            && (log.copies[n] == log.charges[n] <==> EveryPassCopies(START, lim, mode, steps, n))
            && (n in log.spent ==>
                  (log.copies[n] == lim.maxRetries <==> EveryPassCopies(START, lim, mode, steps, n)))
  {
    hide Inv, Run, EveryPassCopies, Shortfalls;
    StartOk(lim, mode);
    RunKeepsInv(START, lim, mode, steps);
    RunGap(START, lim, mode, steps, n);
    RetriesWhenInv(Run(START, lim, mode, steps), lim, mode, n);
  }

  lemma {:induction false} RetriesWhenInv(w: World, lim: Limits, mode: Mode, n: nat)
    requires Inv(w, lim, mode)
    ensures w.log.copies[n] <= w.log.charges[n] <= lim.maxRetries
    ensures n in w.log.spent ==> w.log.charges[n] == lim.maxRetries
  {
    hide SenderOk, NetOk, BufferOk, ReleasedOk, AcksOk, ForgottenOk;
  }

  // -------------------------------------------------------------------------
  // Abandoned without a copy
  // -------------------------------------------------------------------------

  /** Two frames in history, never acknowledged, after `retries` charges each; `marked` is the first one's flag. */
  function TwoWaiting(a: Bytes, b: Bytes, retries: nat, marked: bool): TxState
  {
    TxState(3, [1, 2],
            map[1 := Sent(Frame(1, a), 0, retries, marked, false), 2 := Sent(Frame(2, b), 0, retries, false, false)],
                [])
  }

  lemma {:induction false} FirstPass(lim: Limits, a: Bytes, b: Bytes)
    requires lim.maxRetries == 1 && lim.retransmitMs < U64_SIZE
    ensures var s := TwoWaiting(a, b, 0, false);
            && DueAt(s, lim, lim.retransmitMs) == [1, 2]
            && TimedOut(s, lim, lim.retransmitMs, Some(0)) == TwoWaiting(a, b, 1, true)
  {
    var s, now := TwoWaiting(a, b, 0, false), lim.retransmitMs;
    var s1 := TimeoutOne(s, lim, now, 1);
    var s2 := TimeoutOne(s1, lim, now, 2);
    assert [1, 2][1..] == [2] && [2][1..] == [];
    assert Scan(s2, lim, now, []) == (s2, []);
    assert Scan(s1, lim, now, [2]) == (s2, [2] + []);
    assert [2] + [] == [2];
    assert Scan(s, lim, now, [1, 2]) == (s2, [1] + [2]);
    assert s2 == TwoWaiting(a, b, 1, false);
    assert RequeueAll(s2, [1, 2], 0) == TwoWaiting(a, b, 1, true);
  }

  lemma {:induction false} SecondPass(lim: Limits, a: Bytes, b: Bytes)
    requires lim.maxRetries == 1 && lim.retransmitMs < U64_SIZE
    ensures var s := TwoWaiting(a, b, 1, true);
            var t := TimedOut(s, lim, lim.retransmitMs, Some(0));
            && DueAt(s, lim, lim.retransmitMs) == [] && AbandonedNow(s, lim, lim.retransmitMs) == {2}
            && t.sent == map[1 := s.sent[1]] && t.replay == []
  {
    var s, now := TwoWaiting(a, b, 1, true), lim.retransmitMs;
    assert [1, 2][1..] == [2] && [2][1..] == [];
    var t := TimeoutOne(s, lim, now, 2);
    assert TimeoutOne(s, lim, now, 1) == s;
    assert Scan(t, lim, now, []) == (t, []);
    assert Scan(s, lim, now, [2]) == (t, [] + []);
    assert Scan(s, lim, now, [1, 2]) == (t, [] + []);
    assert t.sent == map[1 := s.sent[1]];
  }

  /** One frame is sent, then a second one; then a first pass charges both. */
  function OneSent(a: Bytes): World
  {
    World(TxState(2, [1], map[1 := Sent(Frame(1, a), 0, 0, false, false)], []), FRESH_RX, {Data(Frame(1, a))},
          Log([a], {1}, [], {}, {}, multiset{}, multiset{}))
  }

  function BothSent(a: Bytes, b: Bytes): World
  {
    World(TwoWaiting(a, b, 0, false), FRESH_RX, {Data(Frame(1, a)), Data(Frame(2, b))},
          Log([a, b], {1, 2}, [], {}, {}, multiset{}, multiset{}))
  }

  function BothCharged(a: Bytes, b: Bytes): World
  {
    var w := BothSent(a, b);
    w.(tx := TwoWaiting(a, b, 1, true), log := w.log.(charges := multiset([1, 2])))
  }

  lemma {:induction false} FirstStep(lim: Limits, a: Bytes, b: Bytes)
    requires lim.maxRetries == 1 && lim.retransmitMs < U64_SIZE
    ensures Next(BothSent(a, b), lim, Ordered, Timeout(lim.retransmitMs, Some(0))) == BothCharged(a, b)
  {
    hide Scan, TimedOut, Classify;
    FirstPass(lim, a, b);
    var w := BothSent(a, b);
    assert AbandonedNow(w.tx, lim, lim.retransmitMs) == {} by { NothingAbandoned(lim, a, b); }
    assert w.log.spent + {} == {};
    assert multiset{} + multiset([1, 2]) == multiset([1, 2]);
    assert Copied([1, 2], Some(0)) == [];
  }

  lemma {:induction false} NothingAbandoned(lim: Limits, a: Bytes, b: Bytes)
    requires lim.maxRetries == 1 && lim.retransmitMs < U64_SIZE
    ensures AbandonedNow(TwoWaiting(a, b, 0, false), lim, lim.retransmitMs) == {}
  {
  }

  lemma {:induction false} ReachOneSent(lim: Limits, a: Bytes)
    requires lim.maxPending >= 1
    ensures Next(START, lim, Ordered, SubmitFrame(a, 0, true, true)) == OneSent(a)
  {
  }

  lemma {:induction false} ReachBothSent(lim: Limits, a: Bytes, b: Bytes)
    requires lim.maxPending >= 2
    ensures Next(OneSent(a), lim, Ordered, SubmitFrame(b, 0, true, true)) == BothSent(a, b)
  {
  }

  lemma {:induction false} UnrollFour(w: World, lim: Limits, steps: seq<Step>)
    requires |steps| == 4
    ensures Run(w, lim, Ordered, steps)
            == Next(Next(Next(Next(w, lim, Ordered, steps[0]), lim, Ordered, steps[1]), lim, Ordered, steps[2]),
                    lim, Ordered, steps[3])
  {
    hide Next;
    var w1 := Next(w, lim, Ordered, steps[0]);
    var w2 := Next(w1, lim, Ordered, steps[1]);
    var w3 := Next(w2, lim, Ordered, steps[2]);
    assert steps[1..][1..] == steps[2..] && steps[2..][1..] == steps[3..] && steps[3..][1..] == [];
    assert Run(w, lim, Ordered, steps) == Run(w1, lim, Ordered, steps[1..]);
    assert Run(w1, lim, Ordered, steps[1..]) == Run(w2, lim, Ordered, steps[2..]);
    assert Run(w2, lim, Ordered, steps[2..]) == Run(w3, lim, Ordered, steps[3..]);
    assert Run(w3, lim, Ordered, steps[3..]) == Run(Next(w3, lim, Ordered, steps[3]), lim, Ordered, []);
  }

  /**
    It takes no other stream: with one retry allowed and no room for copies, two frames are sent, both are
    charged by one pass, and the next pass abandons the second although nothing was ever queued.
   */
  lemma {:induction false} AbandonedInOneStream(lim: Limits, a: Bytes, b: Bytes)
    requires lim.maxPending >= 2 && lim.maxRetries == 1 && lim.retransmitMs < U64_SIZE
    ensures var pass := Timeout(lim.retransmitMs, Some(0));
            var w := Run(START, lim, Ordered, [SubmitFrame(a, 0, true, true), SubmitFrame(b, 0, true, true), pass,
                pass]);
            && 2 in w.log.entered && 2 !in w.tx.sent && 2 in w.log.spent && !Settled(w, Ordered, 2)
            && w.log.charges[2] == 1 && w.log.copies[2] == 0
            && w.net == {Data(Frame(1, a)), Data(Frame(2, b))} && w.tx.replay == []
  {
    hide Scan, TimedOut, Run, AbandonedNow, Submit;
    var pass := Timeout(lim.retransmitMs, Some(0));
    ReachOneSent(lim, a);
    ReachBothSent(lim, a, b);
    FirstStep(lim, a, b);
    SecondPass(lim, a, b);
    UnrollFour(START, lim, [SubmitFrame(a, 0, true, true), SubmitFrame(b, 0, true, true), pass, pass]);
    assert multiset([1, 2])[2] == 1;
    assert Copied([], Some(0)) == [];
    assert Next(BothCharged(a, b), lim, Ordered, pass).log.charges == multiset([1, 2]) + multiset([]);
  }

  /** One frame that has been charged `k` retries, none of them copied. */
  function ChargedAlone(a: Bytes, k: nat): World
  {
    var w := OneSent(a);
    w.(tx := w.tx.(sent := map[1 := Sent(Frame(1, a), 0, k, false, false)]),
        log := w.log.(charges := multiset{}[1 := k]))
  }

  /** Passes that another stream's refused push ends before they come to this stream. */
  function EndedPasses(now: nat, k: nat): (r: seq<Step>)
    ensures |r| == k
  {
    seq(k, i => Timeout(now, None))
  }

  lemma {:induction false} ScanAlone(lim: Limits, a: Bytes, k: nat)
    requires lim.retransmitMs < U64_SIZE
    ensures var s := ChargedAlone(a, k).tx;
            var due := Classify(s, lim, lim.retransmitMs, 1);
            && due == (if k >= lim.maxRetries then Abandon else Resend)
            && Scan(s, lim, lim.retransmitMs, s.sentOrder)
               == (TimeoutOne(s, lim, lim.retransmitMs, 1), if due.Resend? then [1] else [])
  {
    var s, now := ChargedAlone(a, k).tx, lim.retransmitMs;
    var t := TimeoutOne(s, lim, now, 1);
    assert [1][1..] == [];
    assert Scan(t, lim, now, []) == (t, []);
    var none: seq<nat> := [];
    assert [1] + none == [1] && none + none == none;
  }

  lemma {:induction false} ChargeStep(lim: Limits, a: Bytes, k: nat)
    requires lim.retransmitMs < U64_SIZE && k < lim.maxRetries
    ensures Next(ChargedAlone(a, k), lim, Ordered, Timeout(lim.retransmitMs, None)) == ChargedAlone(a, k + 1)
  {
    hide Scan, Classify;
    ScanAlone(lim, a, k);
    NoneAbandoned(lim, a, k);
    var w := ChargedAlone(a, k);
    assert w.log.copies + multiset([]) == w.log.copies;
    assert w.log.spent + {} == {};
    assert w.log.charges + multiset([1]) == multiset{}[1 := k + 1];
    assert Copied([1], None) == [];
  }

  lemma {:induction false} NoneAbandoned(lim: Limits, a: Bytes, k: nat)
    requires lim.retransmitMs < U64_SIZE
    ensures AbandonedNow(ChargedAlone(a, k).tx, lim, lim.retransmitMs) == if k < lim.maxRetries then {} else {1}
  {
  }

  lemma {:induction false} GiveUpStep(lim: Limits, a: Bytes)
    requires lim.retransmitMs < U64_SIZE
    ensures var k := lim.maxRetries;
            var w, v := ChargedAlone(a, k), Next(ChargedAlone(a, k), lim, Ordered, Timeout(lim.retransmitMs, None));
            && v.tx.sent == map[] && v.tx.replay == [] && v.net == w.net && v.rx == w.rx
            && v.log == w.log.(spent := {1})
  {
    hide Scan, Classify;
    ScanAlone(lim, a, lim.maxRetries);
    NoneAbandoned(lim, a, lim.maxRetries);
    var w := ChargedAlone(a, lim.maxRetries);
    assert w.log.charges + multiset([]) == w.log.charges && w.log.copies + multiset([]) == w.log.copies;
    assert w.log.spent + {1} == {1};
    assert Copied([], None) == [];
    assert Forget(map[1 := Sent(Frame(1, a), 0, lim.maxRetries, false, false)], [1]) == map[];
  }

  lemma {:induction false} ReachCharged(lim: Limits, a: Bytes, k: nat)
    requires lim.retransmitMs < U64_SIZE && k <= lim.maxRetries
    ensures Run(OneSent(a), lim, Ordered, EndedPasses(lim.retransmitMs, k)) == ChargedAlone(a, k)
    decreases k
  {
    hide Next;
    if k == 0 {
      assert multiset{}[1 := 0] == multiset{};
    } else {
      ReachCharged(lim, a, k - 1);
      ChargeStep(lim, a, k - 1);
      var front, pass := EndedPasses(lim.retransmitMs, k - 1), Timeout(lim.retransmitMs, None);
      assert EndedPasses(lim.retransmitMs, k) == front + [pass];
      RunSnoc(OneSent(a), lim, Ordered, front, pass);
    }
  }

  /**
    A charged retry need not be a replay, whatever the limit: a frame is sent, and every timeout pass is ended by
    a refused push of another stream before it comes to this one. The frame is charged each time, and the pass
    after the last retry abandons it, although no copy was ever queued and nothing was sent again.
   */
  lemma {:induction false} AbandonedUncopied(lim: Limits, a: Bytes)
    requires lim.maxPending >= 1 && lim.retransmitMs < U64_SIZE
    ensures var steps := [SubmitFrame(a, 0, true, true)] + EndedPasses(lim.retransmitMs, lim.maxRetries + 1);
            var w := Run(START, lim, Ordered, steps);
            && 1 in w.log.entered && 1 !in w.tx.sent && 1 in w.log.spent && !Settled(w, Ordered, 1)
            && w.log.charges[1] == lim.maxRetries && w.log.copies[1] == 0
            && w.net == {Data(Frame(1, a))} && w.tx.replay == []
  {
    hide Next;
    var first, pass := SubmitFrame(a, 0, true, true), Timeout(lim.retransmitMs, None);
    var front := EndedPasses(lim.retransmitMs, lim.maxRetries);
    var passes := EndedPasses(lim.retransmitMs, lim.maxRetries + 1);
    ReachOneSent(lim, a);
    assert ([first] + passes)[1..] == passes;
    assert passes == front + [pass];
    ReachCharged(lim, a, lim.maxRetries);
    RunSnoc(OneSent(a), lim, Ordered, front, pass);
    GiveUpStep(lim, a);
  }

  // -------------------------------------------------------------------------
  // Marked, but not waiting
  // -------------------------------------------------------------------------

  /** In history and marked as queued, with no copy in the replay queue. */
  predicate Orphan(s: TxState, n: nat)
  {
    n in s.sent && s.sent[n].queued && forall i :: 0 <= i < |s.replay| ==> s.replay[i].number != n
  }

  /** The step is an acknowledgement that covers `n`. */
  predicate Acknowledges(w: World, mode: Mode, step: Step, n: nat)
  {
    step.ReceiveAck? && Ack(step.ack) in w.net && (if mode.Ordered? then n <= step.ack else n == step.ack)
  }

  /**
    The step marks `n` although its copy is refused, or takes its waiting copy away without sending it: the
    link failed or was busy without room to put the copy back, or the shared budget reclaimed it.
   */
  predicate LosesCopy(s: TxState, lim: Limits, step: Step, n: nat)
  {
    match step
    case ReceiveRequest(m, pushOk) => m == n && !pushOk && n in s.sent && !s.sent[n].queued
    case Timeout(now, Some(k)) => var due := DueAt(s, lim, now); k < |due| && due[k] == n
    case ReplayOne(_, link, pushOk, _) =>
      && s.replay != [] && s.replay[0].number == n && n in s.sent
      && (link.LinkError? || (link.LinkBusy? && !pushOk))
    case ReclaimReplay(i) => i < |s.replay| && s.replay[i].number == n && n in s.sent
    case _ => false
  }

  lemma {:induction false} TimeoutQueued(s: TxState, lim: Limits, now: nat, admitted: Option<nat>, n: nat)
    requires TxOk(s, lim) && n in s.sent && s.sent[n].queued
    ensures var t := TimedOut(s, lim, now, admitted);
            n in t.sent && t.sent[n] == s.sent[n] && n !in DueAt(s, lim, now)
  {
    hide Scan, TimedOut;
    TimedOutAt(s, lim, now, admitted, n);
    ScanAt(s, lim, now, s.sentOrder, n);
  }

  /** Which records a timeout pass marks, and which of those get a copy. */
  lemma {:induction false} TimeoutUnqueued(s: TxState, lim: Limits, now: nat, admitted: Option<nat>, n: nat)
    requires TxOk(s, lim) && n in s.sent && !s.sent[n].queued
    ensures var t := TimedOut(s, lim, now, admitted);
            var due := DueAt(s, lim, now);
            && (n in t.sent && t.sent[n].queued <==> admitted.Some? && n in due[..Marked(due, admitted.value)])
            && (n in Copied(due, admitted) ==> exists i :: 0 <= i < |t.replay| && t.replay[i].number == n)
  {
    hide Scan;
    var t := TimedOut(s, lim, now, admitted);
    var due := DueAt(s, lim, now);
    var u := Scan(s, lim, now, s.sentOrder).0;
    TimedOutAt(s, lim, now, admitted, n);
    ScanAt(s, lim, now, s.sentOrder, n);
    RequeueReady(s, lim, now);
    if admitted.Some? {
      RequeueAllAt(u, due, admitted.value, n);
      if n in Copied(due, admitted) {
        var i :| 0 <= i < |Copied(due, admitted)| && Copied(due, admitted)[i] == n;
        TimedOutCopyAt(s, lim, now, admitted, i);
        assert t.replay[|s.replay| + i].number == n;
      }
    }
  }

  lemma {:induction false} MarkedButOne(due: seq<nat>, k: nat, n: nat)
    requires Distinct(due)
    ensures n in due[..Marked(due, k)] && n !in Copied(due, Some(k)) <==> k < |due| && due[k] == n
  {
    if k < |due| {
      assert due[..k + 1] == due[..k] + [due[k]];
    }
  }

  lemma {:induction false} TimeoutOrphans(s: TxState, lim: Limits, now: nat, admitted: Option<nat>, n: nat)
    requires TxOk(s, lim)
    ensures Orphan(TimedOut(s, lim, now, admitted), n) <==> Orphan(s, n) || LosesCopy(s, lim, Timeout(now, admitted), n)
  {
    hide Scan, TimedOut, Copied, Marked;
    var t, due := TimedOut(s, lim, now, admitted), DueAt(s, lim, now);
    ScanRequeueOrder(s, lim, now, s.sentOrder);
    TimedOutReplay(s, lim, now, admitted);
    TimedOutAt(s, lim, now, admitted, n);
    assert forall i :: 0 <= i < |s.replay| ==> t.replay[i] == t.replay[..|s.replay|][i] == s.replay[i];
    RequeueReady(s, lim, now);
    if n in s.sent && s.sent[n].queued {
      TimeoutQueued(s, lim, now, admitted, n);
      if Orphan(s, n) {
        forall i | |s.replay| <= i < |t.replay| ensures t.replay[i].number != n {}
      }
    } else if n in s.sent {
      TimeoutUnqueued(s, lim, now, admitted, n);
      if admitted.Some? {
        MarkedButOne(due, admitted.value, n);
        CopiedOnly(s, lim, now, admitted, n);
      }
    } else {
      assert forall m :: m in due ==> m in s.sent;
    }
  }

  /** A record that is not marked has no copy. */
  lemma {:induction false} ReplayWhenOk(s: TxState, lim: Limits, n: nat)
    requires TxOk(s, lim) && n in s.sent && !s.sent[n].queued
    ensures forall i :: 0 <= i < |s.replay| ==> s.replay[i].number != n
  {
  }

  /** A new copy in the replay queue is one of a copied number. */
  lemma {:induction false} CopiedOnly(s: TxState, lim: Limits, now: nat, admitted: Option<nat>, n: nat)
    requires TxOk(s, lim) && n in s.sent && !s.sent[n].queued
    ensures var t := TimedOut(s, lim, now, admitted);
            n !in Copied(DueAt(s, lim, now), admitted) ==> forall i :: 0 <= i < |t.replay| ==> t.replay[i].number != n
  {
    hide Scan, TxOk, FramesOf, RequeueAll;
    TxWhenOk(s, lim);
    ReplayWhenOk(s, lim, n);
    var (u, due) := Scan(s, lim, now, s.sentOrder);
    RequeueReady(s, lim, now);
    var t := TimedOut(s, lim, now, admitted);
    if n !in Copied(due, admitted) && admitted.Some? {
      RequeueAllReplay(u, due, admitted.value);
      var frames := FramesOf(u, due);
      forall i | 0 <= i < |t.replay| ensures t.replay[i].number != n {
        if i >= |s.replay| {
          var k := i - |s.replay|;
          assert t.replay[i] == frames[k] == u.sent[due[k]].frame && Copied(due, admitted)[k] == due[k];
          assert u.sent[due[k]].frame == s.sent[due[k]].frame && s.sent[due[k]].frame.number == due[k];
        }
      }
    }
  }

  lemma {:induction false} RequestOrphans(s: TxState, lim: Limits, m: nat, pushOk: bool, n: nat)
    requires TxOk(s, lim)
    ensures Orphan(Requested(s, m, pushOk), n) <==>
              Orphan(s, n) || (m == n && !pushOk && n in s.sent && !s.sent[n].queued)
  {
    var t := Requested(s, m, pushOk);
    if m in s.sent && !s.sent[m].queued && pushOk {
      assert t.replay[|s.replay|].number == m;
      assert forall i :: 0 <= i < |s.replay| ==> t.replay[i] == s.replay[i];
    }
  }

  lemma {:induction false} ReplayOrphans(s: TxState, lim: Limits, now: nat, link: LinkResult, pushOk: bool, n: nat)
    requires TxOk(s, lim)
    ensures Orphan(Replayed(s, now, link, pushOk), n) <==>
              || Orphan(s, n)
              || (&& s.replay != [] && s.replay[0].number == n && n in s.sent
                  && (link.LinkError? || (link.LinkBusy? && !pushOk)))
  {
    var t := Replayed(s, now, link, pushOk);
    if s.replay != [] {
      assert forall i :: 0 <= i < |s.replay| - 1 ==> t.replay[i] == s.replay[i + 1];
      assert forall i :: 1 <= i < |s.replay| ==> s.replay[i] == t.replay[i - 1];
      if link.LinkBusy? && pushOk && s.replay[0].number in s.sent {
        assert t.replay[|s.replay| - 1] == s.replay[0];
      }
    }
  }

  lemma {:induction false} ReclaimOrphans(s: TxState, lim: Limits, i: nat, n: nat)
    requires TxOk(s, lim) && i < |s.replay|
    ensures Orphan(s.(replay := s.replay[..i] + s.replay[i + 1..]), n) <==>
              Orphan(s, n) || (s.replay[i].number == n && n in s.sent)
  {
    hide HistoryOk, RetriesOk;
    var q := s.replay;
    var r := q[..i] + q[i + 1..];
    if n in s.sent && s.sent[n].queued {
      if forall k :: 0 <= k < |r| ==> r[k].number != n {
        forall k | 0 <= k < |q| && k != i ensures q[k].number != n {
          assert q[k] == r[if k < i then k else k - 1];
        }
      } else {
        var k :| 0 <= k < |r| && r[k].number == n;
        assert r[k] == q[if k < i then k else k + 1];
      }
    }
  }

  lemma {:induction false} AckOrphans(s: TxState, lim: Limits, mode: Mode, ack: nat, n: nat)
    requires TxOk(s, lim)
    ensures Orphan(Acked(s, mode, ack), n) <==> Orphan(s, n) && !(if mode.Ordered? then n <= ack else n == ack)
  {
    AckedMeaning(s, lim, mode, ack);
  }

  /**
    Exactly when a frame becomes an orphan and when it stops being one: a refused, lost or reclaimed copy
    makes it one, and nothing but an acknowledgement ends it, neither a request nor a timeout.
   */
  lemma {:induction false} OrphanExactly(w: World, lim: Limits, mode: Mode, step: Step, n: nat)
    requires TxOk(w.tx, lim)
    ensures Orphan(Next(w, lim, mode, step).tx, n) <==>
              (Orphan(w.tx, n) && !Acknowledges(w, mode, step, n)) || LosesCopy(w.tx, lim, step, n)
  {
    hide Scan, TimedOut, Acked, Requested, Replayed, TxOk, Orphan;
    var s := w.tx;
    match step {
      case SubmitFrame(body, now, txOk, _) => SubmitOrphans(s, lim, body, now, txOk, n);
      case ReceiveData(_, _, _, _) =>
      case ReceiveAck(ack) => AckOrphans(s, lim, mode, ack, n);
      case ReceivePartialAck(m) => PartialAckOrphans(s, m, n);
      case ReceiveRequest(m, pushOk) => RequestOrphans(s, lim, m, pushOk, n);
      case Timeout(now, admitted) => TimeoutOrphans(s, lim, now, admitted, n);
      case ReplayOne(now, link, pushOk, _) => ReplayOrphans(s, lim, now, link, pushOk, n);
      case ReclaimReplay(i) => if i < |s.replay| { ReclaimOrphans(s, lim, i, n); }
      case ReclaimBuffered(_) =>
    }
  }

  lemma {:induction false} SubmitOrphans(s: TxState, lim: Limits, body: Bytes, now: nat, txOk: bool, n: nat)
    requires TxOk(s, lim)
    ensures Orphan(Submit(s, lim, body, now, txOk).0, n) <==> Orphan(s, n)
  {
  }

  lemma {:induction false} PartialAckOrphans(s: TxState, m: nat, n: nat)
    ensures Orphan(PartiallyAcked(s, m), n) <==> Orphan(s, n)
  {
  }

  /** The record of an orphan stays exactly as it was sent and charged, until it is forgotten for good. */
  ghost predicate Untouched(s: TxState, t: TxState, n: nat)
  {
    n in t.sent ==> n in s.sent && Orphan(t, n) && t.sent[n].(partialAcked := s.sent[n].partialAcked) == s.sent[n]
  }

  /** What a step does to the sender. */
  function SenderNext(w: World, lim: Limits, mode: Mode, step: Step): TxState
  {
    match step
    case SubmitFrame(body, now, txOk, _) => Submit(w.tx, lim, body, now, txOk).0
    case ReceiveAck(ack) => if Ack(ack) in w.net then Acked(w.tx, mode, ack) else w.tx
    case ReceivePartialAck(n) => if PartialAck(n) in w.net then PartiallyAcked(w.tx, n) else w.tx
    case ReceiveRequest(n, pushOk) => Requested(w.tx, n, pushOk)
    case Timeout(now, admitted) => TimedOut(w.tx, lim, now, admitted)
    case ReplayOne(now, link, pushOk, _) => Replayed(w.tx, now, link, pushOk)
    case ReclaimReplay(i) =>
      if i < |w.tx.replay| then w.tx.(replay := w.tx.replay[..i] + w.tx.replay[i + 1..]) else w.tx
    case _ => w.tx
  }

  lemma {:induction false} SenderNextIs(w: World, lim: Limits, mode: Mode, step: Step)
    ensures Next(w, lim, mode, step).tx == SenderNext(w, lim, mode, step)
    ensures |w.log.numbered| <= |Next(w, lim, mode, step).log.numbered|
  {
    hide Scan, TimedOut, Acked, Requested, Replayed, PartiallyAcked, Receive, AbandonedNow, Replies;
  }

  lemma {:induction false} NumberStep(w: World, lim: Limits, mode: Mode, step: Step, n: nat)
    requires HistoryOk(w.tx, lim) && n < w.tx.nextSeq && n in SenderNext(w, lim, mode, step).sent
    ensures n in w.tx.sent
  {
    hide Scan, TimedOut, Acked, HistoryOk;
    match step {
      case ReceiveAck(ack) => AckedMeaning(w.tx, lim, mode, ack);
      case Timeout(now, admitted) => TimedOutAt(w.tx, lim, now, admitted, n);
      case _ =>
    }
  }

  lemma {:induction false} RecordStep(w: World, lim: Limits, mode: Mode, step: Step, n: nat)
    requires TxOk(w.tx, lim) && Orphan(w.tx, n) && n in SenderNext(w, lim, mode, step).sent
    ensures SenderNext(w, lim, mode, step).sent[n].(partialAcked := w.tx.sent[n].partialAcked) == w.tx.sent[n]
  {
    hide Scan, TimedOut, Acked, Orphan, TxOk;
    TxWhenOk(w.tx, lim);
    OrphanIsQueued(w.tx, n);
    match step {
      case SubmitFrame(_, _, _, _) => InHistory(w.tx, lim, n);
      case ReceiveAck(ack) => AckedMeaning(w.tx, lim, mode, ack);
      case Timeout(now, admitted) => TimeoutQueued(w.tx, lim, now, admitted, n);
      case _ =>
    }
  }

  lemma {:induction false} InHistory(s: TxState, lim: Limits, n: nat)
    requires HistoryOk(s, lim) && n in s.sent
    ensures n < s.nextSeq
  {
  }

  lemma {:induction false} OrphanStep(w: World, lim: Limits, mode: Mode, step: Step, n: nat)
    requires TxOk(w.tx, lim) && n < w.tx.nextSeq && (n in w.tx.sent ==> Orphan(w.tx, n))
    ensures Untouched(w.tx, Next(w, lim, mode, step).tx, n)
  {
    hide TxOk, Orphan, LosesCopy, Next, SenderNext, Acknowledges;
    SenderNextIs(w, lim, mode, step);
    TxWhenOk(w.tx, lim);
    if n in Next(w, lim, mode, step).tx.sent {
      NumberStep(w, lim, mode, step, n);
      RecordStep(w, lim, mode, step, n);
      OrphanExactly(w, lim, mode, step, n);
      if Acknowledges(w, mode, step, n) {
        ForgottenByAck(w, lim, mode, step, n);
      }
    }
  }

  lemma {:induction false} ForgottenByAck(w: World, lim: Limits, mode: Mode, step: Step, n: nat)
    requires TxOk(w.tx, lim) && Acknowledges(w, mode, step, n)
    ensures n !in Next(w, lim, mode, step).tx.sent
  {
    hide Acked, TxOk;
    TxWhenOk(w.tx, lim);
    AckedMeaning(w.tx, lim, mode, step.ack);
  }

  lemma {:induction false} TxWhenOk(s: TxState, lim: Limits)
    requires TxOk(s, lim)
    ensures HistoryOk(s, lim)
  {
  }

  lemma {:induction false} OrphanIsQueued(s: TxState, n: nat)
    requires Orphan(s, n)
    ensures n in s.sent && s.sent[n].queued && (s.replay != [] ==> s.replay[0].number != n)
  {
  }

  /**
    An orphan is neither sent nor charged nor abandoned again: over any run it stays as it is until it is
    acknowledged.
   */
  lemma {:induction false} OrphanStays(w: World, lim: Limits, mode: Mode, steps: seq<Step>, n: nat)
    requires Inv(w, lim, mode) && n < w.tx.nextSeq && (n in w.tx.sent ==> Orphan(w.tx, n))
    requires |Run(w, lim, mode, steps).log.numbered| + 1 < U32_SIZE
    ensures Untouched(w.tx, Run(w, lim, mode, steps).tx, n)
    decreases |steps|
  {
    if steps != [] {
      hide Inv, Next, Orphan, TxOk, SenderNext;
      var v := Next(w, lim, mode, steps[0]);
      RunNumbersGrow(v, lim, mode, steps[1..]);
      NextKeepsInv(w, lim, mode, steps[0]);
      SenderWhenInv(w, lim, mode);
      SenderWhenInv(v, lim, mode);
      SenderNextIs(w, lim, mode, steps[0]);
      OrphanStep(w, lim, mode, steps[0], n);
      OrphanStays(v, lim, mode, steps[1..], n);
    }
  }

  lemma {:induction false} SenderWhenInv(w: World, lim: Limits, mode: Mode)
    requires Inv(w, lim, mode)
    ensures TxOk(w.tx, lim) && w.tx.nextSeq == |w.log.numbered| + 1
  {
    hide TxOk;
  }
}
