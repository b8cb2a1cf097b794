/**
  What a partial ACK costs. It keeps a frame from being charged and replayed; but the receiver may give the frame up
  again, and from then on only a request brings it back.
 */
module ReliableHeldBack {
  import opened Wrappers
  import opened ReliableTypes
  import opened ReliableSender
  import opened ReliableReceiver
  import opened ReliableSystem
  import opened ReliableReplay
  import ReliableHandOff

  /** In history, reported by the peer, and not marked for replay. */
  predicate HeldBack(s: TxState, n: nat)
  {
    n in s.sent && s.sent[n].partialAcked && !s.sent[n].queued
  }

  /** `n` is gone for good, or still held back with its record as it was. */
  ghost predicate AsItWas(s: TxState, t: TxState, n: nat)
  {
    n in t.sent ==> n in s.sent && t.sent[n] == s.sent[n] && HeldBack(t, n)
  }

  predicate RequestsAgain(step: Step, n: nat)
  {
    step.ReceiveRequest? && step.request == n
  }

  lemma {:induction false} NoCopy(s: TxState, lim: Limits, n: nat)
    requires TxOk(s, lim) && HeldBack(s, n)
    ensures forall i :: 0 <= i < |s.replay| ==> s.replay[i].number != n
    ensures n < s.nextSeq
  {
  }

  lemma {:induction false} LeftAlone(s: TxState, lim: Limits, now: nat, admitted: Option<nat>, n: nat)
    requires HistoryOk(s, lim) && HeldBack(s, n)
    ensures var t := TimedOut(s, lim, now, admitted); n in t.sent && t.sent[n] == s.sent[n]
  {
    hide Scan, TimedOut;
    TimedOutAt(s, lim, now, admitted, n);
  }

  lemma {:induction false} HeldBackStep(w: World, lim: Limits, mode: Mode, step: Step, n: nat)
    requires TxOk(w.tx, lim) && n < w.tx.nextSeq && (n in w.tx.sent ==> HeldBack(w.tx, n)) && !RequestsAgain(step, n)
    ensures AsItWas(w.tx, SenderNext(w, lim, mode, step), n)
  {
    hide Scan, TimedOut, Acked, TxOk;
    TxWhenOk(w.tx, lim);
    if n in SenderNext(w, lim, mode, step).sent {
      NumberStep(w, lim, mode, step, n);
      NoCopy(w.tx, lim, n);
      match step {
        case ReceiveAck(ack) => AckedMeaning(w.tx, lim, mode, ack);
        case Timeout(now, admitted) => LeftAlone(w.tx, lim, now, admitted, n);
        case _ =>
      }
    }
  }

  /**
    A frame that is held back is neither charged, nor replayed, nor abandoned: over any run without a request for it,
    its record stays exactly as it is until the frame is acknowledged, and no copy of it is queued.
   */
  lemma {:induction false} HeldBackStays(w: World, lim: Limits, mode: Mode, steps: seq<Step>, n: nat)
    requires Inv(w, lim, mode) && n < w.tx.nextSeq && (n in w.tx.sent ==> HeldBack(w.tx, n))
    requires forall i :: 0 <= i < |steps| ==> !RequestsAgain(steps[i], n)
    requires |Run(w, lim, mode, steps).log.numbered| + 1 < U32_SIZE
    ensures var t := Run(w, lim, mode, steps).tx;
            && AsItWas(w.tx, t, n)
            && (n in t.sent ==> forall i :: 0 <= i < |t.replay| ==> t.replay[i].number != n)
    decreases |steps|
  {
    hide Inv, Next, TxOk, SenderNext, HeldBack;
    SenderWhenInv(w, lim, mode);
    if steps == [] {
      if n in w.tx.sent {
        NoCopy(w.tx, lim, n);
      }
    } else {
      var v := Next(w, lim, mode, steps[0]);
      RunNumbersGrow(v, lim, mode, steps[1..]);
      NextKeepsInv(w, lim, mode, steps[0]);
      SenderWhenInv(v, lim, mode);
      SenderNextIs(w, lim, mode, steps[0]);
      HeldBackStep(w, lim, mode, steps[0], n);
      HeldBackStays(v, lim, mode, steps[1..], n);
    }
  }

  // -------------------------------------------------------------------------
  // Held back without reason
  // -------------------------------------------------------------------------

  /** Frame 2 waits at the receiver, and the sender knows. */
  function Reported(a: Bytes, b: Bytes): World
  {
    var w := ReliableHandOff.SecondWaits(a, b);
    w.(tx := w.tx.(sent := w.tx.sent[2 := Sent(Frame(2, b), 0, 0, false, true)]))
  }

  /** The receiver has given frame 2 up for want of memory. */
  function GivenUp(a: Bytes, b: Bytes): World
  {
    var w := Reported(a, b);
    w.(rx := RxState(1, map[]))
  }

  /** Then frame 1 came, was released and acknowledged. */
  function FirstDone(a: Bytes, b: Bytes): World
  {
    var w := GivenUp(a, b);
    w.(rx := RxState(2, map[]), net := w.net + {Ack(1)}, log := w.log.(released := [Frame(1, a)]))
  }

  lemma {:induction false} ReachReported(lim: Limits, a: Bytes, b: Bytes)
    ensures Next(ReliableHandOff.SecondWaits(a, b), lim, Ordered, ReceivePartialAck(2)) == Reported(a, b)
  {
  }

  lemma {:induction false} ReachGivenUp(lim: Limits, a: Bytes, b: Bytes)
    ensures Next(Reported(a, b), lim, Ordered, ReclaimBuffered({2})) == GivenUp(a, b)
  {
    assert map[2 := Frame(2, b)] - {2} == map[];
  }

  lemma {:induction false} ReachFirstDone(lim: Limits, a: Bytes, b: Bytes)
    ensures Next(GivenUp(a, b), lim, Ordered, ReceiveData(Frame(1, a), true, {}, true)) == FirstDone(a, b)
  {
    assert Drain(map[], 2, 1) == Drained([], map[], 2, 1);
    assert [Frame(1, a)] + [] == [Frame(1, a)];
  }

  lemma {:induction false} ReachOneLeft(lim: Limits, a: Bytes, b: Bytes)
    ensures var w := Next(FirstDone(a, b), lim, Ordered, ReceiveAck(1));
            && w.tx.sent == map[2 := Sent(Frame(2, b), 0, 0, false, true)] && w.tx.replay == []
            && w.rx == RxState(2, map[]) && w.log.released == [Frame(1, a)]
  {
    assert AckedPrefix([1, 2], 1) == 1 + AckedPrefix([2], 1) by { assert [1, 2][1..] == [2]; }
    assert AckedPrefix([2], 1) == 0;
    assert [1, 2][..1] == [1];
  }

  /** Two frames are sent, the second arrives first and is reported and given up, the first arrives and is done. */
  function GiveUpSteps(a: Bytes, b: Bytes): seq<Step>
  {
    [SubmitFrame(a, 0, true, true), SubmitFrame(b, 0, true, true), ReceiveData(Frame(2, b), true, {}, true),
     ReceivePartialAck(2), ReclaimBuffered({2}), ReceiveData(Frame(1, a), true, {}, true), ReceiveAck(1)]
  }

  lemma {:induction false} OneMore(lim: Limits, steps: seq<Step>, k: nat)
    requires k < |steps|
    ensures var w := Run(START, lim, Ordered, steps[..k]);
            Run(START, lim, Ordered, steps[..k + 1]) == Next(w, lim, Ordered, steps[k])
  {
    hide Next;
    assert steps[..k + 1] == steps[..k] + [steps[k]];
    RunSnoc(START, lim, Ordered, steps[..k], steps[k]);
  }

  lemma {:induction false} ReachFirstSix(lim: Limits, a: Bytes, b: Bytes)
    requires lim.maxPending >= 2
    ensures Run(START, lim, Ordered, GiveUpSteps(a, b)[..6]) == FirstDone(a, b)
  {
    hide Next, OneSent, BothSent, ReliableHandOff.SecondWaits, Reported, GivenUp, FirstDone;
    var steps := GiveUpSteps(a, b);
    forall k: nat | k < 6
      ensures var w := Run(START, lim, Ordered, steps[..k]);
              Run(START, lim, Ordered, steps[..k + 1]) == Next(w, lim, Ordered, steps[k])
    {
      OneMore(lim, steps, k);
    }
    assert Run(START, lim, Ordered, steps[..0]) == START;
    ReachOneSent(lim, a);
    assert Run(START, lim, Ordered, steps[..1]) == OneSent(a);
    ReachBothSent(lim, a, b);
    assert Run(START, lim, Ordered, steps[..2]) == BothSent(a, b);
    ReliableHandOff.ReachSecondWaits(lim, a, b);
    assert Run(START, lim, Ordered, steps[..3]) == ReliableHandOff.SecondWaits(a, b);
    ReachReported(lim, a, b);
    assert Run(START, lim, Ordered, steps[..4]) == Reported(a, b);
    ReachGivenUp(lim, a, b);
    assert Run(START, lim, Ordered, steps[..5]) == GivenUp(a, b);
    ReachFirstDone(lim, a, b);
  }

  /**
    A frame can be held back although the receiver no longer has it. After these steps the receiver expects frame 2
    and nothing waits; the sender has frame 2 in history and nothing else. In every continuation without a request
    for frame 2, no timeout charges, replays or abandons it. The receiver sends such a request only when it gets a
    later frame.
   */
  lemma {:induction false} HeldBackWithoutFrame(lim: Limits, a: Bytes, b: Bytes, more: seq<Step>)
    requires lim.maxPending >= 2 && forall i :: 0 <= i < |more| ==> !RequestsAgain(more[i], 2)
    requires var w := Run(START, lim, Ordered, GiveUpSteps(a, b));
             |w.log.numbered| + 1 < U32_SIZE && |Run(w, lim, Ordered, more).log.numbered| + 1 < U32_SIZE
    ensures var w := Run(START, lim, Ordered, GiveUpSteps(a, b));
            var t := Run(w, lim, Ordered, more).tx;
            && w.rx == RxState(2, map[]) && w.log.released == [Frame(1, a)]
            && w.tx.sent == map[2 := Sent(Frame(2, b), 0, 0, false, true)]
            && (2 in t.sent ==> t.sent[2] == Sent(Frame(2, b), 0, 0, false, true)
                                && forall i :: 0 <= i < |t.replay| ==> t.replay[i].number != 2)
  {
    hide Next, Run, Inv, FirstDone, GiveUpSteps;
    var steps := GiveUpSteps(a, b);
    var w := Run(START, lim, Ordered, steps);
    LastStep(a, b);
    assert steps[..7] == steps;
    OneMore(lim, steps, 6);
    ReachFirstSix(lim, a, b);
    ReachOneLeft(lim, a, b);
    StartOk(lim, Ordered);
    RunKeepsInv(START, lim, Ordered, steps);
    SenderWhenInv(w, lim, Ordered);
    NoCopy(w.tx, lim, 2);
    HeldBackStays(w, lim, Ordered, more, 2);
  }

  lemma {:induction false} LastStep(a: Bytes, b: Bytes)
    ensures |GiveUpSteps(a, b)| == 7 && GiveUpSteps(a, b)[6] == ReceiveAck(1)
  {
  }
}
