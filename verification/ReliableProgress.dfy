/**
  When an ordered stream can move on. The receiver waits for one number; whether any continuation at all gets it
  past that number is decided by what the link and the sender still hold.
 */
module ReliableProgress {
  import opened Wrappers
  import opened ReliableTypes
  import opened ReliableSender
  import opened ReliableReceiver
  import opened ReliableSystem
  import opened ReliableReplay
  import opened ReliableReplies
  import ReliableGap

  /** Some continuation that ends before the numbering wraps takes the receiver past the number it expects. */
  ghost predicate CanMoveOn(w: World, lim: Limits)
  {
    exists more :: MovesOn(w, lim, more)
  }

  predicate MovesOn(w: World, lim: Limits, more: seq<Step>)
  {
    var v := Run(w, lim, Ordered, more);
    |v.log.numbered| + 1 < U32_SIZE && v.rx.expected > w.rx.expected
  }

  /** A frame with the expected number has been put on the link. */
  ghost predicate OnLink(w: World, n: nat)
  {
    exists f :: Data(f) in w.net && f.number == n
  }

  /** The sender can still put the frame on the link: it is in history, and not marked without a copy. */
  predicate Repeatable(w: World, n: nat)
  {
    n in w.tx.sent && !Orphan(w.tx, n)
  }

  // -------------------------------------------------------------------------
  // Without the frame, no step helps
  // -------------------------------------------------------------------------

  /** The receiver expects `n`, which was numbered; no frame with this number is on the link, or will be. */
  ghost predicate Stuck(w: World, n: nat)
  {
    && w.rx.expected == n < w.tx.nextSeq
    && !OnLink(w, n)
    && (n in w.tx.sent ==> Orphan(w.tx, n))
  }

  /** What a step puts on the link as data: the frame it numbers, or the front of the replay queue. */
  lemma {:induction false} NewData(w: World, lim: Limits, step: Step, f: Frame)
    requires Data(f) in Next(w, lim, Ordered, step).net && Data(f) !in w.net
    ensures f.number == w.tx.nextSeq
            || (w.tx.replay != [] && f == w.tx.replay[0] && f.number in w.tx.sent)
  {
    hide Scan, TimedOut, Acked, Requested, Replayed, PartiallyAcked, AbandonedNow, Copied, Buffered, Drain;
  }

  lemma {:induction false} NothingPutOnLink(w: World, lim: Limits, step: Step, n: nat)
    requires Stuck(w, n)
    ensures !OnLink(Next(w, lim, Ordered, step), n)
  {
    hide Next;
    forall f | Data(f) in Next(w, lim, Ordered, step).net ensures f.number != n {
      if Data(f) !in w.net {
        NewData(w, lim, step, f);
      }
    }
  }

  /** Only a frame with the expected number moves the receiver on. */
  lemma {:induction false} ReceiverWaits(w: World, lim: Limits, step: Step)
    requires !OnLink(w, w.rx.expected)
    ensures Next(w, lim, Ordered, step).rx.expected == w.rx.expected
  {
    hide Scan, TimedOut, Acked, Requested, Replayed, PartiallyAcked, Submit, AbandonedNow, Copied, Drain;
  }

  lemma {:induction false} StuckStep(w: World, lim: Limits, step: Step, n: nat)
    requires Inv(w, lim, Ordered) && Inv(Next(w, lim, Ordered, step), lim, Ordered) && Stuck(w, n)
    ensures Stuck(Next(w, lim, Ordered, step), n)
  {
    hide Inv, Next, TxOk, Orphan, OnLink, SenderNext;
    SenderWhenInv(w, lim, Ordered);
    SenderWhenInv(Next(w, lim, Ordered, step), lim, Ordered);
    SenderNextIs(w, lim, Ordered, step);
    NothingPutOnLink(w, lim, step, n);
    ReceiverWaits(w, lim, step);
    OrphanStep(w, lim, Ordered, step, n);
  }

  lemma {:induction false} StuckForGood(w: World, lim: Limits, more: seq<Step>, n: nat)
    requires Inv(w, lim, Ordered) && Stuck(w, n)
    requires |Run(w, lim, Ordered, more).log.numbered| + 1 < U32_SIZE
    ensures Stuck(Run(w, lim, Ordered, more), n)
    decreases |more|
  {
    if more != [] {
      hide Inv, Next, Stuck;
      var v := Next(w, lim, Ordered, more[0]);
      RunNumbersGrow(v, lim, Ordered, more[1..]);
      NextKeepsInv(w, lim, Ordered, more[0]);
      StuckStep(w, lim, more[0], n);
      StuckForGood(v, lim, more[1..], n);
    }
  }

  // -------------------------------------------------------------------------
  // With it, a few steps do
  // -------------------------------------------------------------------------

  lemma {:induction false} TwoRuns(w: World, lim: Limits, first: Step, more: seq<Step>)
    ensures Run(w, lim, Ordered, [first] + more) == Run(Next(w, lim, Ordered, first), lim, Ordered, more)
  {
    hide Next;
    assert ([first] + more)[1..] == more;
  }

  /** Delivering the expected frame moves the receiver on. */
  lemma {:induction false} DeliveryMovesOn(w: World, lim: Limits, f: Frame)
    requires Inv(w, lim, Ordered) && Data(f) in w.net && f.number == w.rx.expected
    ensures CanMoveOn(w, lim)
  {
    hide Next, TxOk, ReleasedOk, AcksOk, ForgottenOk, RetryCountOk, Authentic, Run;
    var step := ReceiveData(f, true, {}, true);
    assert Authentic(w.log, f);
    AnswerInPlace(w, lim, step);
    ReceivingKeepsLog(w, lim, step);
    OneStep(w, lim, step);
    assert MovesOn(w, lim, [step]);
  }

  lemma {:induction false} OneStep(w: World, lim: Limits, step: Step)
    ensures Run(w, lim, Ordered, [step]) == Next(w, lim, Ordered, step)
  {
    hide Next;
    assert [step][1..] == [];
    assert Run(Next(w, lim, Ordered, step), lim, Ordered, []) == Next(w, lim, Ordered, step);
  }

  lemma {:induction false} ReceivingKeepsLog(w: World, lim: Limits, step: Step)
    requires !step.SubmitFrame?
    ensures Next(w, lim, Ordered, step).log.numbered == w.log.numbered
  {
    hide Scan, TimedOut, Acked, Requested, Replayed, PartiallyAcked, AbandonedNow, Copied, Receive, Replies;
  }

  /** A continuation of a continuation is one. */
  lemma {:induction false} StepThenMove(w: World, lim: Limits, step: Step)
    requires CanMoveOn(Next(w, lim, Ordered, step), lim)
    requires Next(w, lim, Ordered, step).rx.expected == w.rx.expected
    ensures CanMoveOn(w, lim)
  {
    hide Next, Run;
    var more :| MovesOn(Next(w, lim, Ordered, step), lim, more);
    TwoRuns(w, lim, step, more);
    assert MovesOn(w, lim, [step] + more);
  }

  /** One replay over a free link: the front leaves the queue, and its frame is on the link if it is in history. */
  lemma {:induction false} ReplayFront(w: World, lim: Limits)
    requires w.tx.replay != []
    ensures var v := Next(w, lim, Ordered, ReplayOne(0, LinkOk, true, true));
            && v.rx == w.rx && v.log == w.log
            && v.tx.replay == w.tx.replay[1..]
            && v.tx.sent.Keys == w.tx.sent.Keys
            && (w.tx.replay[0].number in w.tx.sent ==> Data(w.tx.replay[0]) in v.net)
  {
  }

  /** A waiting copy of the expected frame comes to the front, goes over the link and is taken. */
  lemma {:induction false} CopyMovesOn(w: World, lim: Limits, i: nat)
    requires Inv(w, lim, Ordered) && i < |w.tx.replay|
    requires w.tx.replay[i].number == w.rx.expected && w.rx.expected in w.tx.sent
    ensures CanMoveOn(w, lim)
    decreases i
  {
    hide Inv, Next, CanMoveOn;
    var step := ReplayOne(0, LinkOk, true, true);
    var v := Next(w, lim, Ordered, step);
    ReplayFront(w, lim);
    Numbers(w, lim);
    NextKeepsInv(w, lim, Ordered, step);
    if i == 0 {
      DeliveryMovesOn(v, lim, w.tx.replay[0]);
    } else {
      assert v.tx.replay[i - 1] == w.tx.replay[i];
      CopyMovesOn(v, lim, i - 1);
    }
    StepThenMove(w, lim, step);
  }

  lemma {:induction false} Numbers(w: World, lim: Limits)
    requires Inv(w, lim, Ordered)
    ensures |w.log.numbered| + 1 < U32_SIZE
  {
    hide TxOk, NetOk, BufferOk, ReleasedOk, AcksOk, ForgottenOk, RetryCountOk;
  }

  lemma {:induction false} RequestQueuesCopy(w: World, lim: Limits, n: nat)
    requires TxOk(w.tx, lim) && n in w.tx.sent && !w.tx.sent[n].queued
    ensures var v := Next(w, lim, Ordered, ReceiveRequest(n, true));
            && v.rx == w.rx && v.log == w.log && n in v.tx.sent
            && |v.tx.replay| == |w.tx.replay| + 1 && v.tx.replay[|w.tx.replay|].number == n
  {
    hide Ascending, ReplayOk, RetriesOk;
  }

  /** A frame that the sender can repeat is requested if need be, and then its copy is as good as delivered. */
  lemma {:induction false} RepeatableMovesOn(w: World, lim: Limits)
    requires Inv(w, lim, Ordered) && Repeatable(w, w.rx.expected)
    ensures CanMoveOn(w, lim)
  {
    hide Inv, Next, CanMoveOn, TxOk;
    var n := w.rx.expected;
    SenderWhenInv(w, lim, Ordered);
    if w.tx.sent[n].queued {
      var i :| 0 <= i < |w.tx.replay| && w.tx.replay[i].number == n;
      CopyMovesOn(w, lim, i);
    } else {
      var step := ReceiveRequest(n, true);
      Numbers(w, lim);
      RequestQueuesCopy(w, lim, n);
      NextKeepsInv(w, lim, Ordered, step);
      CopyMovesOn(Next(w, lim, Ordered, step), lim, |w.tx.replay|);
      StepThenMove(w, lim, step);
    }
  }

  // -------------------------------------------------------------------------
  // Exactly when
  // -------------------------------------------------------------------------

  lemma {:induction false} MovesOnExactly(w: World, lim: Limits)
    requires Inv(w, lim, Ordered) && w.rx.expected < w.tx.nextSeq
    ensures CanMoveOn(w, lim) <==> OnLink(w, w.rx.expected) || Repeatable(w, w.rx.expected)
  {
    hide Inv, Run, Orphan;
    var n := w.rx.expected;
    if OnLink(w, n) {
      var f :| Data(f) in w.net && f.number == n;
      DeliveryMovesOn(w, lim, f);
    } else if Repeatable(w, n) {
      RepeatableMovesOn(w, lim);
    } else if CanMoveOn(w, lim) {
      var more :| MovesOn(w, lim, more);
      StuckForGood(w, lim, more, n);
    }
  }

  /**
    When a stream is stuck. In every reachable state before the wrap in which the receiver waits for a number
    that was handed out, some continuation takes it past that number if and only if the frame has been put on
    the link, or the sender has it in history and can repeat it, which it cannot once the frame is marked as
    queued without a copy. So one lost copy, or one abandoned frame, whose transmissions were all lost before the
    link, stops the stream for good; and nothing else does.
   */
  lemma {:induction false} StreamMovesOnExactly(lim: Limits, steps: seq<Step>)
    requires |Run(START, lim, Ordered, steps).log.numbered| + 1 < U32_SIZE
    requires var w := Run(START, lim, Ordered, steps); w.rx.expected < w.tx.nextSeq
    ensures var w := Run(START, lim, Ordered, steps);
            CanMoveOn(w, lim) <==> OnLink(w, w.rx.expected) || Repeatable(w, w.rx.expected)
  {
    hide Inv, Run, Orphan, CanMoveOn, OnLink, Repeatable;
    StartOk(lim, Ordered);
    RunKeepsInv(START, lim, Ordered, steps);
    MovesOnExactly(Run(START, lim, Ordered, steps), lim);
  }
}
