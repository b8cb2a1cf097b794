/**
  What the receiver tells the sender: the answer to each ordered frame on numbers, what waits in the reorder
  buffer afterwards, and that a partial acknowledgement names a frame that the receiver has really held.
 */
module ReliableReplies {
  import opened Wrappers
  import opened ReliableTypes
  import opened ReliableSender
  import opened ReliableReceiver
  import opened ReliableSystem
  import opened ReliableReplay
  import ReliableGap

  // -------------------------------------------------------------------------
  // The answer to one frame
  // -------------------------------------------------------------------------

  /**
    The answer to an old or early frame. An old one gets the ACK of the number in front of the expected one; an
    early one that waits afterwards a partial ACK of its own number and a request for the expected one; one
    that was refused gets none.
   */
  lemma {:induction false} AnswerBeforeOrAhead(w: World, lim: Limits, step: Step)
    requires step.ReceiveData? && Data(step.frame) in w.net && step.replied
    ensures var v := Next(w, lim, Ordered, step);
            var n, e := step.frame.number, w.rx.expected;
            && (n < e ==> v == w.(net := w.net + {Ack(e - 1)}))
            && (n > e && n in v.rx.buffered ==> v.net == w.net + {PartialAck(n), Request(e)})
            && (n > e && n !in v.rx.buffered ==> v.net == w.net)
            && (n > e ==> v.tx == w.tx && v.log == w.log && v.rx.expected == e)
  {
    hide Drain;
    var v := Next(w, lim, Ordered, step);
    if step.frame.number > w.rx.expected && step.frame.number !in v.rx.buffered {
      assert w.net + {} == w.net;
    }
  }

  /** The answer to the expected frame: the ACK of the number in front of the one expected afterwards. */
  lemma {:induction false} AnswerInPlace(w: World, lim: Limits, step: Step)
    requires step.ReceiveData? && Data(step.frame) in w.net && step.replied
    requires BufferOk(w) && Authentic(w.log, step.frame) && |w.log.numbered| + 1 < U32_SIZE
    requires step.frame.number == w.rx.expected
    ensures var v := Next(w, lim, Ordered, step);
            && v.rx.expected > w.rx.expected
            && v.net == w.net + {Ack(v.rx.expected - 1)}
            && v.tx == w.tx
  {
    hide Drain, BufferOk;
    var e := w.rx.expected;
    assert (e + 1) % U32_SIZE == e + 1;
    ReleaseBuffer(w, step.frame);
  }

  /**
    What a release takes and what it leaves: everything that waited below the first missing number, and nothing
    else.
   */
  lemma {:induction false} WaitingAfterRelease(w: World, lim: Limits, step: Step, m: nat)
    requires step.ReceiveData? && Data(step.frame) in w.net
    requires BufferOk(w) && Authentic(w.log, step.frame) && |w.log.numbered| + 1 < U32_SIZE
    requires step.frame.number == w.rx.expected
    ensures var v := Next(w, lim, Ordered, step);
            var e, next := w.rx.expected, v.rx.expected;
            && e < next && next !in w.rx.buffered
            && (e < m < next ==> m in w.rx.buffered)
            && (m in v.rx.buffered <==> m in w.rx.buffered && m > next)
            && (m in v.rx.buffered ==> v.rx.buffered[m] == w.rx.buffered[m])
            && |v.log.released| == |w.log.released| + (next - e)
            && v.log.released[..|w.log.released| + 1] == w.log.released + [step.frame]
            && (e < m < next ==> v.log.released[|w.log.released| + (m - e)] == w.rx.buffered[m])
  {
    hide Drain, Authentic;
    var e, bound := w.rx.expected, |w.log.numbered| + 1;
    assert Authentic(w.log, step.frame);
    ReliableGap.AuthenticNumber(w.log, step.frame);
    ReliableGap.BufferedNumbers(w);
    assert (e + 1) % U32_SIZE == e + 1;
    DrainEnd(w.rx.buffered, e + 1, e, bound);
    DrainAt(w.rx.buffered, e + 1, e, bound, m);
    var d := Drain(w.rx.buffered, e + 1, e);
    var v := Next(w, lim, Ordered, step);
    assert v.log.released == w.log.released + ([step.frame] + d.frames);
  }

  /** Without an answer the link stays as it is, and an unordered stream acknowledges each frame by its number. */
  lemma {:induction false} AnswerOtherwise(w: World, lim: Limits, mode: Mode, step: Step)
    requires step.ReceiveData? && Data(step.frame) in w.net
    ensures var v := Next(w, lim, mode, step);
            && (!step.replied ==> v.net == w.net)
            && (step.replied && mode.Unordered? ==>
                  && v.net == w.net + {Ack(step.frame.number)}
                  && v.log.accepted == w.log.accepted + {step.frame.number})
  {
    hide Receive;
    assert w.net + {} == w.net;
  }

  // -------------------------------------------------------------------------
  // What waits
  // -------------------------------------------------------------------------

  /**
    What waits after an early frame. If its number waited already, nothing changes. Otherwise the reclaimed
    numbers are gone; and if there is room, the frame is stored, and a full buffer gives up its lowest number
    and no other.
   */
  lemma {:induction false} WaitingAfterEarly(w: World, lim: Limits, step: Step, m: nat)
    requires step.ReceiveData? && Data(step.frame) in w.net && step.frame.number > w.rx.expected
    ensures var v := Next(w, lim, Ordered, step);
            var n, kept := step.frame.number, w.rx.buffered.Keys - step.evicted;
            && (n in w.rx.buffered ==> v.rx == w.rx)
            && (n !in w.rx.buffered && step.roomOk ==> n in v.rx.buffered && v.rx.buffered[n] == step.frame)
            && (n !in w.rx.buffered && (m != n || !step.roomOk) ==>
                  (m in v.rx.buffered <==>
                   m in kept && (step.roomOk && |kept| >= lim.maxPending ==> exists k :: k in kept && k < m)))
            && (m in v.rx.buffered && m in w.rx.buffered ==> v.rx.buffered[m] == w.rx.buffered[m])
  {
    hide Drain, Buffered;
    BufferedAt(w.rx, lim, step.frame, step.roomOk, step.evicted, m);
  }

  // -------------------------------------------------------------------------
  // Partial acknowledgements over whole runs
  // -------------------------------------------------------------------------

  /** The receiver has this frame: it waits in the reorder buffer, or it was released. */
  predicate Holds(w: World, f: Frame)
  {
    (f.number in w.rx.buffered && w.rx.buffered[f.number] == f) || f in w.log.released
  }

  /** At some point of the run the receiver had this frame. */
  ghost predicate EverHeld(lim: Limits, steps: seq<Step>, f: Frame)
  {
    exists k :: 0 <= k <= |steps| && Holds(Run(START, lim, Ordered, steps[..k]), f)
  }

  lemma {:induction false} EverHeldSnoc(lim: Limits, steps: seq<Step>, step: Step, f: Frame)
    requires EverHeld(lim, steps, f) || Holds(Run(START, lim, Ordered, steps + [step]), f)
    ensures EverHeld(lim, steps + [step], f)
  {
    hide Run, Holds;
    var longer := steps + [step];
    if EverHeld(lim, steps, f) {
      var k :| 0 <= k <= |steps| && Holds(Run(START, lim, Ordered, steps[..k]), f);
      assert longer[..k] == steps[..k];
    } else {
      assert longer[..|longer|] == longer;
    }
  }

  /** A new partial ACK names a frame that waits after the step. */
  lemma {:induction false} PartialAckWaits(w: World, lim: Limits, step: Step, n: nat)
    requires PartialAck(n) in Next(w, lim, Ordered, step).net && PartialAck(n) !in w.net
    ensures n in Next(w, lim, Ordered, step).rx.buffered
  {
    hide Scan, TimedOut, Acked, Requested, Replayed, PartiallyAcked, AbandonedNow, Copied, Drain, Submit;
  }

  /** A record becomes partially acknowledged by a partial ACK on the link only. */
  lemma {:induction false} PartialMarkHasAck(w: World, lim: Limits, mode: Mode, step: Step, n: nat)
    requires HistoryOk(w.tx, lim)
    requires var t := SenderNext(w, lim, mode, step); n in t.sent && t.sent[n].partialAcked
    ensures (n in w.tx.sent && w.tx.sent[n].partialAcked) || PartialAck(n) in w.net
  {
    hide Scan, TimedOut, Acked, HistoryOk;
    match step {
      case ReceiveAck(ack) => AckedMeaning(w.tx, lim, mode, ack);
      case Timeout(now, admitted) => PassMarksNoPartial(w.tx, lim, now, admitted, n);
      case _ =>
    }
  }

  lemma {:induction false} PassMarksNoPartial(s: TxState, lim: Limits, now: nat, admitted: Option<nat>, n: nat)
    requires HistoryOk(s, lim)
    requires var t := TimedOut(s, lim, now, admitted); n in t.sent && t.sent[n].partialAcked
    ensures n in s.sent && s.sent[n].partialAcked
  {
    hide Scan;
    var (u, requeue) := Scan(s, lim, now, s.sentOrder);
    ScanAt(s, lim, now, s.sentOrder, n);
    RequeueReady(s, lim, now);
    if admitted.Some? {
      RequeueAllAt(u, requeue, admitted.value, n);
    }
  }

  /** The frame that was given this number. */
  function Numbered(log: Log, n: nat): Frame
    requires 1 <= n <= |log.numbered|
  {
    Frame(n, log.numbered[n - 1])
  }

  /** Every partial ACK on the link and every partially acknowledged record is one of a frame that was held. */
  ghost predicate PartialsHeld(w: World, lim: Limits, steps: seq<Step>)
  {
    && (forall n: nat :: PartialAck(n) in w.net ==>
          1 <= n <= |w.log.numbered| && EverHeld(lim, steps, Numbered(w.log, n)))
    && (forall n: nat :: n in w.tx.sent && w.tx.sent[n].partialAcked ==>
          1 <= n <= |w.log.numbered| && EverHeld(lim, steps, Numbered(w.log, n)))
  }

  lemma {:induction false} NumberedStays(w: World, lim: Limits, mode: Mode, step: Step)
    ensures w.log.numbered <= Next(w, lim, mode, step).log.numbered
  {
    hide Scan, TimedOut, Acked, Requested, Replayed, PartiallyAcked, AbandonedNow, Copied, Receive, Replies;
  }

  lemma {:induction false} WaitingIsNumbered(w: World, n: nat)
    requires BufferOk(w) && n in w.rx.buffered
    ensures 1 <= n <= |w.log.numbered| && w.rx.buffered[n] == Numbered(w.log, n)
  {
  }

  lemma {:induction false} PartialsStep(lim: Limits, steps: seq<Step>, step: Step)
    requires var w := Run(START, lim, Ordered, steps);
             && PartialsHeld(w, lim, steps) && HistoryOk(w.tx, lim)
             && BufferOk(Next(w, lim, Ordered, step))
    ensures PartialsHeld(Next(Run(START, lim, Ordered, steps), lim, Ordered, step), lim, steps + [step])
  {
    hide Run, Next, EverHeld, BufferOk, HistoryOk, SenderNext;
    var w := Run(START, lim, Ordered, steps);
    var v := Next(w, lim, Ordered, step);
    RunSnoc(START, lim, Ordered, steps, step);
    NumberedStays(w, lim, Ordered, step);
    SenderNextIs(w, lim, Ordered, step);
    forall n: nat | PartialAck(n) in v.net || (n in v.tx.sent && v.tx.sent[n].partialAcked)
      ensures 1 <= n <= |v.log.numbered| && EverHeld(lim, steps + [step], Numbered(v.log, n))
    {
      if PartialAck(n) !in v.net {
        PartialMarkHasAck(w, lim, Ordered, step, n);
      } else if PartialAck(n) !in w.net {
        PartialAckWaits(w, lim, step, n);
        WaitingIsNumbered(v, n);
      }
      EverHeldSnoc(lim, steps, step, Numbered(v.log, n));
    }
  }

  /**
    Partial acknowledgements are honest. Over every run before the wrap, a partial ACK on the link, and
    a record of the history that is kept from retries because of one, name a frame that the receiver has held,
    byte for byte: at some point of the run it waited in the reorder buffer or was released.
   */
  lemma {:induction false} PartialAcksAreHonest(lim: Limits, steps: seq<Step>, n: nat)
    requires |Run(START, lim, Ordered, steps).log.numbered| + 1 < U32_SIZE
    ensures var w := Run(START, lim, Ordered, steps);
            PartialAck(n) in w.net || (n in w.tx.sent && w.tx.sent[n].partialAcked) ==>
              1 <= n <= |w.log.numbered| && EverHeld(lim, steps, Numbered(w.log, n))
  {
    hide Run, EverHeld;
    RunPartials(lim, steps);
  }

  lemma {:induction false} RunPartials(lim: Limits, steps: seq<Step>)
    requires |Run(START, lim, Ordered, steps).log.numbered| + 1 < U32_SIZE
    ensures PartialsHeld(Run(START, lim, Ordered, steps), lim, steps)
    decreases |steps|
  {
    hide Inv, Next, EverHeld, HistoryOk, BufferOk, PartialsHeld;
    if steps == [] {
      StartPartials(lim);
    } else {
      var front, last := steps[..|steps| - 1], steps[|steps| - 1];
      assert steps == front + [last];
      RunSnoc(START, lim, Ordered, front, last);
      RunPartials(lim, front);
      StartOk(lim, Ordered);
      RunKeepsInv(START, lim, Ordered, front);
      RunKeepsInv(START, lim, Ordered, steps);
      BothEnds(Run(START, lim, Ordered, front), lim);
      BothEnds(Run(START, lim, Ordered, steps), lim);
      PartialsStep(lim, front, last);
    }
  }

  lemma {:induction false} StartPartials(lim: Limits)
    ensures PartialsHeld(START, lim, [])
  {
  }

  lemma {:induction false} BothEnds(w: World, lim: Limits)
    requires Inv(w, lim, Ordered)
    ensures HistoryOk(w.tx, lim) && BufferOk(w)
  {
    hide NetOk, ReleasedOk, AcksOk, ForgottenOk, RetryCountOk;
  }
}
