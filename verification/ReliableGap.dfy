/** A number whose frame never reached the link: the ordered stream waits for it for good. */
module ReliableGap {
  import opened Wrappers
  import opened ReliableTypes
  import opened ReliableSender
  import opened ReliableReceiver
  import opened ReliableSystem
  import opened ReliableReplay

  /** `n` was handed out, but no frame with this number exists anywhere, and the receiver has not passed it. */
  ghost predicate Missing(w: World, n: nat)
  {
    && n < w.tx.nextSeq && n !in w.tx.sent
    && (forall f :: f in w.tx.replay ==> f.number != n)
    && (forall f :: Data(f) in w.net ==> f.number != n)
    && n !in w.rx.buffered && w.rx.expected <= n
  }

  /** A step's copies in the replay queue are old ones or frames of the history. */
  lemma {:induction false} CopiesOfHistory(w: World, lim: Limits, mode: Mode, step: Step)
    requires TxOk(w.tx, lim)
    ensures forall f :: f in SenderNext(w, lim, mode, step).replay ==> f in w.tx.replay || f.number in w.tx.sent
  {
    hide Scan, TimedOut, TxOk, Acked;
    TxWhenOk(w.tx, lim);
    match step {
      case ReceiveAck(ack) => AckedMeaning(w.tx, lim, mode, ack);
      case Timeout(now, admitted) => TimeoutCopies(w.tx, lim, now, admitted);
      case ReplayOne(now, link, pushOk, _) => ReplayedInventsNothing(w.tx, now, link, pushOk);
      case _ =>
    }
  }

  lemma {:induction false} TimeoutCopies(s: TxState, lim: Limits, now: nat, admitted: Option<nat>)
    requires TxOk(s, lim)
    ensures forall f :: f in TimedOut(s, lim, now, admitted).replay ==> f in s.replay || f.number in s.sent
  {
    hide Scan, TimedOut;
    var t := TimedOut(s, lim, now, admitted);
    TimedOutReplay(s, lim, now, admitted);
    assert forall i :: 0 <= i < |s.replay| ==> t.replay[i] == t.replay[..|s.replay|][i] == s.replay[i];
  }

  /** What a step puts on the link as data: a new number's frame, or a replay of a frame of the history. */
  lemma {:induction false} DataOnLink(w: World, lim: Limits, mode: Mode, step: Step, f: Frame)
    requires Data(f) in Next(w, lim, mode, step).net && Data(f) !in w.net
    ensures f.number == w.tx.nextSeq || f.number in w.tx.sent
  {
    hide Scan, TimedOut, Acked, Requested, Replayed, PartiallyAcked, AbandonedNow, Copied, Buffered, Drain;
  }

  lemma {:induction false} ReceiverStaysBelow(w: World, lim: Limits, step: Step, n: nat)
    requires BufferOk(w) && NetOk(w) && |w.log.numbered| + 1 < U32_SIZE && Missing(w, n)
    ensures var v := Next(w, lim, Ordered, step); n !in v.rx.buffered && v.rx.expected <= n
  {
    hide Scan, TimedOut, Acked, Requested, Replayed, PartiallyAcked, Submit, AbandonedNow, Copied, Drain, Authentic;
    if step.ReceiveData? && Data(step.frame) in w.net {
      var f := step.frame;
      if f.number > w.rx.expected {
        BufferedAddsOnlyTheFrame(w.rx, lim, f, step.roomOk, step.evicted);
      } else if f.number == w.rx.expected {
        AuthenticNumber(w.log, f);
        BufferedNumbers(w);
        assert (f.number + 1) % U32_SIZE == f.number + 1;
        DrainAt(w.rx.buffered, f.number + 1, f.number, |w.log.numbered| + 1, n);
      }
    }
  }

  lemma {:induction false} AuthenticNumber(log: Log, f: Frame)
    requires Authentic(log, f)
    ensures 1 <= f.number <= |log.numbered|
  {
  }

  lemma {:induction false} BufferedNumbers(w: World)
    requires BufferOk(w)
    ensures BufferedBelow(w.rx.buffered, |w.log.numbered| + 1)
  {
  }

  lemma {:induction false} MissingStays(w: World, lim: Limits, step: Step, n: nat)
    requires Inv(w, lim, Ordered) && Inv(Next(w, lim, Ordered, step), lim, Ordered) && Missing(w, n)
    ensures Missing(Next(w, lim, Ordered, step), n)
  {
    hide Next, SenderNext, TxOk, Authentic, ForgottenOk, RetryCountOk, AcksOk, ReleasedOk;
    var v := Next(w, lim, Ordered, step);
    SenderNextIs(w, lim, Ordered, step);
    TxWhenOk(w.tx, lim);
    if n in v.tx.sent {
      NumberStep(w, lim, Ordered, step, n);
    }
    CopiesOfHistory(w, lim, Ordered, step);
    forall f | Data(f) in v.net ensures f.number != n {
      if Data(f) !in w.net {
        DataOnLink(w, lim, Ordered, step, f);
      }
    }
    ReceiverStaysBelow(w, lim, step, n);
  }

  lemma {:induction false} MissingForGood(w: World, lim: Limits, steps: seq<Step>, n: nat)
    requires Inv(w, lim, Ordered) && Missing(w, n)
    requires |Run(w, lim, Ordered, steps).log.numbered| + 1 < U32_SIZE
    ensures Missing(Run(w, lim, Ordered, steps), n)
    decreases |steps|
  {
    if steps != [] {
      hide Inv, Next, Missing;
      var v := Next(w, lim, Ordered, steps[0]);
      RunNumbersGrow(v, lim, Ordered, steps[1..]);
      NextKeepsInv(w, lim, Ordered, steps[0]);
      MissingStays(w, lim, steps[0], n);
      MissingForGood(v, lim, steps[1..], n);
    }
  }

  /** Nothing knows the next number yet. */
  ghost predicate Unknown(w: World, n: nat)
  {
    && n !in w.tx.sent
    && (forall f :: f in w.tx.replay ==> f.number != n)
    && (forall f :: Data(f) in w.net ==> f.number != n)
    && n !in w.rx.buffered && w.rx.expected <= n
  }

  lemma {:induction false} NextIsUnknown(w: World, lim: Limits)
    requires Inv(w, lim, Ordered)
    ensures Unknown(w, w.tx.nextSeq)
  {
    hide RetriesOk, ForgottenOk, RetryCountOk, AcksOk, ReleasedOk, Ascending;
    forall f | f in w.tx.replay ensures f.number != w.tx.nextSeq {
      var i :| 0 <= i < |w.tx.replay| && w.tx.replay[i] == f;
    }
  }

  lemma {:induction false} FailedSubmit(w: World, lim: Limits, step: Step)
    requires step.SubmitFrame? && !step.txOk && !step.onWire && |w.tx.sent| < lim.maxPending
    ensures var v := Next(w, lim, Ordered, step);
            && v.tx == w.tx.(nextSeq := AfterSeq(w.tx.nextSeq)) && v.net == w.net && v.rx == w.rx
            && |v.log.numbered| == |w.log.numbered| + 1
  {
  }

  lemma {:induction false} NextNumber(n: nat)
    requires n + 1 < U32_SIZE
    ensures AfterSeq(n) == n + 1
  {
  }

  /** A first transmission that fails before the link leaves its number missing. */
  lemma {:induction false} FailedSubmitIsMissing(w: World, lim: Limits, step: Step)
    requires step.SubmitFrame? && !step.txOk && !step.onWire && |w.tx.sent| < lim.maxPending
    requires Inv(w, lim, Ordered) && |w.log.numbered| + 2 < U32_SIZE
    ensures Missing(Next(w, lim, Ordered, step), w.tx.nextSeq)
  {
    hide Inv, Next, TxOk, AfterSeq;
    NextIsUnknown(w, lim);
    SenderWhenInv(w, lim, Ordered);
    FailedSubmit(w, lim, step);
    NextNumber(w.tx.nextSeq);
  }

  /**
    A failed first transmission takes a number but leaves no record that could be sent again. If its frame did
    not reach the link, the stream never gets past it: in every continuation of every run the receiver expects
    at most this number, and releases only frames in front of it.
   */
  lemma {:induction false} FailedSubmitBlocksStream(lim: Limits, before: seq<Step>, body: Bytes, now: nat,
      after: seq<Step>)
    requires var w := Run(START, lim, Ordered, before);
             var v := Next(w, lim, Ordered, SubmitFrame(body, now, false, false));
             |w.tx.sent| < lim.maxPending && |Run(v, lim, Ordered, after).log.numbered| + 1 < U32_SIZE
    ensures var w := Run(START, lim, Ordered, before);
            var v := Run(Next(w, lim, Ordered, SubmitFrame(body, now, false, false)), lim, Ordered, after);
            v.rx.expected <= w.tx.nextSeq && |v.log.released| < w.tx.nextSeq
  {
    hide Inv, Next, Run, Missing, ReleasedOk;
    var step := SubmitFrame(body, now, false, false);
    var w := Run(START, lim, Ordered, before);
    var v := Next(w, lim, Ordered, step);
    RunNumbersGrow(v, lim, Ordered, after);
    SenderNextIs(w, lim, Ordered, step);
    StartOk(lim, Ordered);
    RunKeepsInv(START, lim, Ordered, before);
    NextKeepsInv(w, lim, Ordered, step);
    FailedSubmit(w, lim, step);
    SenderWhenInv(w, lim, Ordered);
    FailedSubmitIsMissing(w, lim, step);
    MissingForGood(v, lim, after, w.tx.nextSeq);
    RunKeepsInv(v, lim, Ordered, after);
    MissingBlocks(Run(v, lim, Ordered, after), lim, w.tx.nextSeq);
  }

  lemma {:induction false} MissingBlocks(w: World, lim: Limits, n: nat)
    requires Inv(w, lim, Ordered) && Missing(w, n)
    ensures w.rx.expected <= n && |w.log.released| < n
  {
    hide SenderOk, NetOk, AcksOk, ForgottenOk, RetryCountOk;
  }
}
