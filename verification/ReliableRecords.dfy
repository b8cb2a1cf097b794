/**
  What the fields of a history record mean over a run: when its frame was last handed to the link, whether the
  peer has reported it since it was last marked for replay, and when a timeout may act on it.
 */
module ReliableRecords {
  import opened Wrappers
  import opened ReliableTypes
  import opened ReliableSender
  import opened ReliableReceiver
  import opened ReliableSystem
  import opened ReliableReplay

  // -------------------------------------------------------------------------
  // When a number was last handed to the link
  // -------------------------------------------------------------------------

  /** The time at which the step hands `n` to the link: a first transmission that is accepted, or a replay. */
  function HandedAt(w: World, lim: Limits, step: Step, n: nat): Option<nat>
  {
    match step
    case SubmitFrame(_, now, txOk, _) =>
      if txOk && |w.tx.sent| < lim.maxPending && n == w.tx.nextSeq then Some(now) else None
    case ReplayOne(now, link, _, _) =>
      if link.LinkOk? && w.tx.replay != [] && w.tx.replay[0].number == n && n in w.tx.sent then Some(now) else None
    case _ => None
  }

  /** The last time at which the run handed `n` to the link. */
  function LastHanded(lim: Limits, mode: Mode, steps: seq<Step>, n: nat): Option<nat>
    decreases |steps|
  {
    if steps == [] then None
    else
      var front, last := steps[..|steps| - 1], steps[|steps| - 1];
      var at := HandedAt(Run(START, lim, mode, front), lim, last, n);
      if at.Some? then at else LastHanded(lim, mode, front, n)
  }

  /** A step changes the time in a record only by handing its frame to the link. */
  lemma {:induction false} TimeStep(w: World, lim: Limits, mode: Mode, step: Step, n: nat)
    requires HistoryOk(w.tx, lim) && n in SenderNext(w, lim, mode, step).sent
    ensures var at := HandedAt(w, lim, step, n);
            var after := SenderNext(w, lim, mode, step).sent[n].lastSendMs;
            if at.Some? then after == at.value else n in w.tx.sent && after == w.tx.sent[n].lastSendMs
  {
    hide Scan, TimedOut, Acked, HistoryOk;
    match step {
      case ReceiveAck(ack) => AckedMeaning(w.tx, lim, mode, ack);
      case Timeout(now, admitted) => PassKeepsTime(w.tx, lim, now, admitted, n);
      case _ =>
    }
  }

  lemma {:induction false} PassKeepsTime(s: TxState, lim: Limits, now: nat, admitted: Option<nat>, n: nat)
    requires HistoryOk(s, lim)
    ensures var t := TimedOut(s, lim, now, admitted);
            n in t.sent ==> n in s.sent && t.sent[n].lastSendMs == s.sent[n].lastSendMs
  {
    hide Scan;
    var (u, requeue) := Scan(s, lim, now, s.sentOrder);
    ScanAt(s, lim, now, s.sentOrder, n);
    RequeueReady(s, lim, now);
    if admitted.Some? {
      RequeueAllAt(u, requeue, admitted.value, n);
    }
  }

  /**
    The time in a record is the time at which its frame was last handed to the link: by the first transmission,
    or by the latest replay that the link accepted.
   */
  lemma {:induction false} RecordHasLastTime(lim: Limits, mode: Mode, steps: seq<Step>, n: nat)
    requires |Run(START, lim, mode, steps).log.numbered| + 1 < U32_SIZE
    ensures var tx := Run(START, lim, mode, steps).tx;
            n in tx.sent ==> LastHanded(lim, mode, steps, n) == Some(tx.sent[n].lastSendMs)
    decreases |steps|
  {
    hide Inv, Next, TxOk, HistoryOk, HandedAt, SenderNext;
    if steps != [] {
      var front, last := steps[..|steps| - 1], steps[|steps| - 1];
      assert steps == front + [last];
      var w := Run(START, lim, mode, front);
      RunSnoc(START, lim, mode, front, last);
      RecordHasLastTime(lim, mode, front, n);
      StartOk(lim, mode);
      RunKeepsInv(START, lim, mode, front);
      SenderWhenInv(w, lim, mode);
      TxWhenOk(w.tx, lim);
      SenderNextIs(w, lim, mode, last);
      if n in Next(w, lim, mode, last).tx.sent {
        TimeStep(w, lim, mode, last, n);
      }
    }
  }

  // -------------------------------------------------------------------------
  // When a timeout acts
  // -------------------------------------------------------------------------

  /** `n` has been on the link for at least the configured time, on a clock that wraps at 2^64 milliseconds. */
  predicate Overdue(lim: Limits, mode: Mode, steps: seq<Step>, now: nat, n: nat)
  {
    var last := LastHanded(lim, mode, steps, n);
    last.Some? && (now - last.value) % 0x1_0000_0000_0000_0000 >= lim.retransmitMs
  }

  /** What a timeout pass does to the record and the log of one number, stated on the record's fields. */
  lemma {:induction false} PassAt(w: World, lim: Limits, mode: Mode, now: nat, admitted: Option<nat>, n: nat)
    requires Inv(w, lim, mode) && n in w.tx.sent
    ensures var v := Next(w, lim, mode, Timeout(now, admitted));
            var r := w.tx.sent[n];
            var due := !r.queued && !r.partialAcked
                       && (now - r.lastSendMs) % 0x1_0000_0000_0000_0000 >= lim.retransmitMs;
            var last := w.log.charges[n] == lim.maxRetries;
            && (due && last <==> n !in v.tx.sent)
            && (n in v.log.spent <==> n in w.log.spent || (due && last))
            && v.log.charges[n] == w.log.charges[n] + (if due && !last then 1 else 0)
            && (n in v.tx.sent ==> v.tx.sent[n].retries == v.log.charges[n])
            && (n in v.tx.sent && !due ==> v.tx.sent[n] == r)
  {
    hide SenderOk, NetOk, BufferOk, ReleasedOk, AcksOk, ForgottenOk, Scan, TimedOut, Copied;
    var v := Next(w, lim, mode, Timeout(now, admitted));
    assert SenderOk(w, lim);
    SenderWhenInv(w, lim, mode);
    TimeoutAt(w, lim, now, admitted, n);
    TxWhenOk(w.tx, lim);
    TimedOutAt(w.tx, lim, now, admitted, n);
    DueWhenResend(w.tx, lim, now, n);
  }

  lemma {:induction false} DueWhenResend(s: TxState, lim: Limits, now: nat, n: nat)
    requires HistoryOk(s, lim)
    ensures n in DueAt(s, lim, now) <==> n in s.sent && Classify(s, lim, now, n).Resend?
  {
    ScanAt(s, lim, now, s.sentOrder, n);
  }

  /**
    A timeout acts on a frame exactly when it is overdue, neither marked for replay nor reported by the peer:
    then it is charged one more retry, or abandoned if it has been charged the maximum. A frame that was handed
    to the link more recently is neither charged nor abandoned, and its record stays as it is.
   */
  lemma {:induction false} TimeoutActsExactly(lim: Limits, mode: Mode, steps: seq<Step>, now: nat,
      admitted: Option<nat>, n: nat)
    requires |Run(START, lim, mode, steps).log.numbered| + 1 < U32_SIZE
    requires n in Run(START, lim, mode, steps).tx.sent
    ensures var w := Run(START, lim, mode, steps);
            var v := Next(w, lim, mode, Timeout(now, admitted));
            var r := w.tx.sent[n];
            var acts := Overdue(lim, mode, steps, now, n) && !r.queued && !r.partialAcked;
            var last := w.log.charges[n] == lim.maxRetries;
            && (n !in v.tx.sent <==> acts && last)
            && (n in v.log.spent <==> n in w.log.spent || (acts && last))
            && v.log.charges[n] == w.log.charges[n] + (if acts && !last then 1 else 0)
            && (n in v.tx.sent ==> v.tx.sent[n].retries == v.log.charges[n])
            && (!acts ==> n in v.tx.sent && v.tx.sent[n] == r)
  {
    hide Inv, Next, Run, LastHanded;
    var w := Run(START, lim, mode, steps);
    StartOk(lim, mode);
    RunKeepsInv(START, lim, mode, steps);
    RecordHasLastTime(lim, mode, steps, n);
    PassAt(w, lim, mode, now, admitted, n);
  }

  // -------------------------------------------------------------------------
  // Marks and reports
  // -------------------------------------------------------------------------

  /** The step marks `n` for replay: an explicit request, or a timeout pass that comes to the push of its copy. */
  predicate MarkedAt(w: World, lim: Limits, step: Step, n: nat)
  {
    match step
    case ReceiveRequest(m, _) => m == n && n in w.tx.sent && !w.tx.sent[n].queued
    case Timeout(now, Some(k)) =>
      var due := DueAt(w.tx, lim, now);
      exists i :: 0 <= i < |due| && i <= k && due[i] == n
    case _ => false
  }

  /** The step takes a report of the peer that it holds `n`. */
  predicate ReportedAt(w: World, step: Step, n: nat)
  {
    step == ReceivePartialAck(n) && PartialAck(n) in w.net && n in w.tx.sent
  }

  /** `n` was marked for replay since it was last handed to the link. */
  predicate MarkedSince(lim: Limits, mode: Mode, steps: seq<Step>, n: nat)
    decreases |steps|
  {
    steps != []
    && var front, last := steps[..|steps| - 1], steps[|steps| - 1];
    var w := Run(START, lim, mode, front);
    MarkedAt(w, lim, last, n) || (HandedAt(w, lim, last, n).None? && MarkedSince(lim, mode, front, n))
  }

  /** The peer has reported `n` since it was first sent, and it was not marked for replay after that. */
  predicate ReportedSince(lim: Limits, mode: Mode, steps: seq<Step>, n: nat)
    decreases |steps|
  {
    steps != []
    && var front, last := steps[..|steps| - 1], steps[|steps| - 1];
    var w := Run(START, lim, mode, front);
    ReportedAt(w, last, n)
    || (!MarkedAt(w, lim, last, n) && !(last.SubmitFrame? && HandedAt(w, lim, last, n).Some?)
        && ReportedSince(lim, mode, front, n))
  }

  /** The numbers that a timeout pass charges come in the order in which they were sent. */
  lemma {:induction false} DueAscending(s: TxState, lim: Limits, now: nat, snapshot: seq<nat>)
    requires Ascending(snapshot)
    ensures Ascending(Scan(s, lim, now, snapshot).1)
    ensures forall n :: n in Scan(s, lim, now, snapshot).1 ==> n in snapshot
    decreases |snapshot|
  {
    if snapshot != [] {
      var head, tail := snapshot[0], snapshot[1..];
      var u := TimeoutOne(s, lim, now, head);
      DueAscending(u, lim, now, tail);
      var rest := Scan(u, lim, now, tail).1;
      forall j | 0 <= j < |rest| ensures head < rest[j] {
        assert rest[j] in tail;
      }
    }
  }

  lemma {:induction false} MarkedIsIndexed(due: seq<nat>, k: nat, n: nat)
    ensures n in due[..Marked(due, k)] <==> exists i :: 0 <= i < |due| && i <= k && due[i] == n
  {
  }

  lemma {:induction false} PassFlags(s: TxState, lim: Limits, now: nat, admitted: Option<nat>, n: nat)
    requires HistoryOk(s, lim)
    ensures var t, due := TimedOut(s, lim, now, admitted), DueAt(s, lim, now);
            var marked := admitted.Some? && n in due[..Marked(due, admitted.value)];
            n in t.sent ==>
              && n in s.sent
              && t.sent[n].queued == (marked || s.sent[n].queued)
              && t.sent[n].partialAcked == (!marked && s.sent[n].partialAcked)
  {
    hide Scan;
    var (u, requeue) := Scan(s, lim, now, s.sentOrder);
    ScanAt(s, lim, now, s.sentOrder, n);
    RequeueReady(s, lim, now);
    if admitted.Some? {
      RequeueAllAt(u, requeue, admitted.value, n);
    }
  }

  /** How a step changes the two flags of a record that it leaves in history. */
  lemma {:induction false} FlagStep(w: World, lim: Limits, mode: Mode, step: Step, n: nat)
    requires HistoryOk(w.tx, lim) && n in SenderNext(w, lim, mode, step).sent
    ensures var r := SenderNext(w, lim, mode, step).sent[n];
            var first := step.SubmitFrame? && HandedAt(w, lim, step, n).Some?;
            && (first || n in w.tx.sent)
            && (r.queued <==>
                  MarkedAt(w, lim, step, n)
                  || (HandedAt(w, lim, step, n).None? && n in w.tx.sent && w.tx.sent[n].queued))
            && (r.partialAcked <==>
                  ReportedAt(w, step, n)
                  || (!MarkedAt(w, lim, step, n) && !first && n in w.tx.sent && w.tx.sent[n].partialAcked))
  {
    hide Scan, TimedOut, Acked, HistoryOk;
    match step {
      case ReceiveAck(ack) => AckedMeaning(w.tx, lim, mode, ack);
      case Timeout(now, admitted) =>
        PassFlags(w.tx, lim, now, admitted, n);
        if admitted.Some? {
          MarkedIsIndexed(DueAt(w.tx, lim, now), admitted.value, n);
        }
      case _ =>
    }
  }

  /**
    The flags of a record tell its story. It is marked as queued exactly if it was marked for replay since it
    was last handed to the link, and as partially acknowledged exactly if the peer reported it and it was not
    marked for replay since.
   */
  lemma {:induction false} RecordTellsItsStory(lim: Limits, mode: Mode, steps: seq<Step>, n: nat)
    requires |Run(START, lim, mode, steps).log.numbered| + 1 < U32_SIZE
    ensures var tx := Run(START, lim, mode, steps).tx;
            n in tx.sent ==>
              && tx.sent[n].queued == MarkedSince(lim, mode, steps, n)
              && tx.sent[n].partialAcked == ReportedSince(lim, mode, steps, n)
    decreases |steps|
  {
    hide Inv, Next, TxOk, HistoryOk, HandedAt, MarkedAt, ReportedAt, SenderNext;
    if steps != [] {
      var front, last := steps[..|steps| - 1], steps[|steps| - 1];
      assert steps == front + [last];
      var w := Run(START, lim, mode, front);
      RunSnoc(START, lim, mode, front, last);
      RecordTellsItsStory(lim, mode, front, n);
      StartOk(lim, mode);
      RunKeepsInv(START, lim, mode, front);
      SenderWhenInv(w, lim, mode);
      TxWhenOk(w.tx, lim);
      SenderNextIs(w, lim, mode, last);
      if n in Next(w, lim, mode, last).tx.sent {
        FlagStep(w, lim, mode, last, n);
      }
    }
  }

  // -------------------------------------------------------------------------
  // The replay queue
  // -------------------------------------------------------------------------

  /**
    The replay queue is first in, first out: a request or a timeout pass appends unaltered frames of the history,
    a replay takes the front and puts it back at the end only on a busy link with room for it, and nothing else
    moves an item.
   */
  lemma {:induction false} ReplayQueueStep(w: World, lim: Limits, mode: Mode, step: Step)
    requires TxOk(w.tx, lim)
    ensures var q, r := w.tx.replay, SenderNext(w, lim, mode, step).replay;
            match step
            case ReceiveRequest(m, pushOk) =>
              r == q + (if pushOk && m in w.tx.sent && !w.tx.sent[m].queued then [w.tx.sent[m].frame] else [])
            case Timeout(now, admitted) =>
              var copied := Copied(DueAt(w.tx, lim, now), admitted);
              && |r| == |q| + |copied| && q <= r
              && forall i :: 0 <= i < |copied| ==>
                   copied[i] in w.tx.sent && r[|q| + i] == w.tx.sent[copied[i]].frame
            case ReplayOne(_, link, pushOk, _) =>
              if q == [] then r == []
              else r == q[1..] + (if link.LinkBusy? && pushOk && q[0].number in w.tx.sent then [q[0]] else [])
            case ReclaimReplay(i) => r == if i < |q| then q[..i] + q[i + 1..] else q
            case _ => r == q
  {
    hide Scan, TimedOut, Acked, TxOk, Requested, Replayed, PartiallyAcked, Copied;
    TxWhenOk(w.tx, lim);
    match step {
      case SubmitFrame(_, _, _, _) =>
      case ReceiveAck(ack) => AckedMeaning(w.tx, lim, mode, ack);
      case ReceivePartialAck(n) => ReportKeepsReplay(w.tx, n);
      case Timeout(now, admitted) => PassCopies(w.tx, lim, now, admitted);
      case ReceiveRequest(m, pushOk) => RequestAppends(w.tx, m, pushOk);
      case ReplayOne(now, link, pushOk, _) => ReplayTakesFront(w.tx, now, link, pushOk);
      case _ =>
    }
  }

  lemma {:induction false} ReportKeepsReplay(s: TxState, n: nat)
    ensures PartiallyAcked(s, n).replay == s.replay
  {
  }

  lemma {:induction false} RequestAppends(s: TxState, m: nat, pushOk: bool)
    ensures Requested(s, m, pushOk).replay
            == s.replay + (if pushOk && m in s.sent && !s.sent[m].queued then [s.sent[m].frame] else [])
  {
    assert s.replay + [] == s.replay;
  }

  lemma {:induction false} ReplayTakesFront(s: TxState, now: nat, link: LinkResult, pushOk: bool)
    ensures var q, r := s.replay, Replayed(s, now, link, pushOk).replay;
            if q == [] then r == []
            else r == q[1..] + (if link.LinkBusy? && pushOk && q[0].number in s.sent then [q[0]] else [])
  {
    if s.replay != [] {
      assert s.replay[1..] + [] == s.replay[1..];
    }
  }

  lemma {:induction false} PassCopies(s: TxState, lim: Limits, now: nat, admitted: Option<nat>)
    requires HistoryOk(s, lim)
    ensures var q, r, copied := s.replay, TimedOut(s, lim, now, admitted).replay, Copied(DueAt(s, lim, now), admitted);
            && |r| == |q| + |copied| && q <= r
            && forall i :: 0 <= i < |copied| ==> copied[i] in s.sent && r[|q| + i] == s.sent[copied[i]].frame
  {
    hide Scan, RequeueAll;
    var (u, due) := Scan(s, lim, now, s.sentOrder);
    RequeueReady(s, lim, now);
    if admitted.Some? {
      RequeueAllReplay(u, due, admitted.value);
    }
  }
}
