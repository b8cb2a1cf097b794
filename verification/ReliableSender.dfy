/**
  Sending half of one (side, data type) reliable stream: sequence allocation, sent history,
  acknowledgements, explicit requests, timeout scan and replay queue.

  The functions say what each relay method does to the stream's state; the class at the end
  performs the same work in place, loop by loop.
 */
module ReliableSender {
  import opened Basics
  import opened Wrappers
  import opened ReliableTypes

  /** History record of one frame that was handed to the link. */
  datatype Sent = Sent(frame: Frame, lastSendMs: nat, retries: nat, queued: bool, partialAcked: bool)

  datatype TxState = TxState(nextSeq: nat, sentOrder: seq<nat>, sent: map<nat, Sent>, replay: seq<Frame>)

  const FRESH_TX: TxState := TxState(1, [], map[], [])

  /** u64 wrapping subtraction. */
  function ElapsedMs(now: nat, earlier: nat): nat
  {
    (now - earlier) % U64_SIZE
  }

  // -------------------------------------------------------------------------
  // First transmission
  // -------------------------------------------------------------------------

  datatype SendOutcome = HistoryFull | TxFailed | Transmitted

  /** A frame takes the next number whether or not the TX handler accepts it; only an accepted one enters history. */
  function Submit(s: TxState, lim: Limits, body: Bytes, now: nat, txOk: bool): (TxState, SendOutcome)
  {
    if |s.sent| >= lim.maxPending then (s, HistoryFull)
    else
      var numbered := s.(nextSeq := AfterSeq(s.nextSeq));
      if !txOk then (numbered, TxFailed)
      else
        (numbered.(sentOrder := s.sentOrder + [s.nextSeq],
                   sent := s.sent[s.nextSeq := Sent(Frame(s.nextSeq, body), now, 0, false, false)]),
         Transmitted)
  }

  // -------------------------------------------------------------------------
  // Acknowledgements and requests
  // -------------------------------------------------------------------------

  /** How many numbers at the front of the order queue are at most `ack`, up to the first larger one. */
  function AckedPrefix(order: seq<nat>, ack: nat): (k: nat)
    ensures k <= |order|
  {
    if order == [] || order[0] > ack then 0 else 1 + AckedPrefix(order[1..], ack)
  }

  function Without(order: seq<nat>, x: nat): (r: seq<nat>)
  {
    if order == [] then [] else (if order[0] == x then [] else [order[0]]) + Without(order[1..], x)
  }

  function Forget(sent: map<nat, Sent>, gone: seq<nat>): map<nat, Sent>
  {
    map n | n in sent && n !in gone :: sent[n]
  }

  function Acked(s: TxState, mode: Mode, ack: nat): TxState
  {
    match mode
    case Unordered => s.(sent := Forget(s.sent, [ack]), sentOrder := Without(s.sentOrder, ack))
    case Ordered =>
      var k := AckedPrefix(s.sentOrder, ack);
      s.(sentOrder := s.sentOrder[k..], sent := Forget(s.sent, s.sentOrder[..k]))
  }

  function PartiallyAcked(s: TxState, n: nat): TxState
  {
    if n in s.sent then s.(sent := s.sent[n := s.sent[n].(partialAcked := true)]) else s
  }

  /** Marks a frame of the history for replay and, when the shared budget admits it, queues a copy. */
  function Requested(s: TxState, n: nat, pushOk: bool): TxState
  {
    if n in s.sent && !s.sent[n].queued then
      s.(sent := s.sent[n := s.sent[n].(queued := true, partialAcked := false)],
         replay := if pushOk then s.replay + [s.sent[n].frame] else s.replay)
    else s
  }

  // -------------------------------------------------------------------------
  // Timeout scan
  // -------------------------------------------------------------------------

  datatype Due = Leave | Abandon | Resend

  function Classify(s: TxState, lim: Limits, now: nat, n: nat): Due
  {
    if n !in s.sent then Leave
    else
      var it := s.sent[n];
      if it.queued || ElapsedMs(now, it.lastSendMs) < lim.retransmitMs then Leave
      else if it.partialAcked then Leave
      else if it.retries >= lim.maxRetries then Abandon
      else Resend
  }

  function TimeoutOne(s: TxState, lim: Limits, now: nat, n: nat): TxState
  {
    match Classify(s, lim, now, n)
    case Leave => s
    case Abandon => s.(sent := Forget(s.sent, [n]), sentOrder := Without(s.sentOrder, n))
    case Resend => s.(sent := s.sent[n := s.sent[n].(retries := s.sent[n].retries + 1)])
  }

  /** First pass over a snapshot of the order queue: state afterwards, and the numbers to requeue. */
  function Scan(s: TxState, lim: Limits, now: nat, snapshot: seq<nat>): (TxState, seq<nat>)
    decreases |snapshot|
  {
    if snapshot == [] then (s, [])
    else
      var (t, requeue) := Scan(TimeoutOne(s, lim, now, snapshot[0]), lim, now, snapshot[1..]);
      (t, (if Classify(s, lim, now, snapshot[0]).Resend? then [snapshot[0]] else []) + requeue)
  }

  /** Second pass: requeue in order; the pass stops at the first push the budget refuses. */
  function RequeueAll(s: TxState, requeue: seq<nat>, accepted: nat): TxState
    decreases |requeue|
  {
    if requeue == [] then s
    else if accepted == 0 then Requested(s, requeue[0], false)
    else RequeueAll(Requested(s, requeue[0], true), requeue[1..], accepted - 1)
  }

  /**
    The requeue pass covers all streams and ends at the first push that is refused. `admitted` is how many of
    this stream's pushes are admitted before one of them is refused; `None` if another stream's refused push
    ended the pass before it came to this stream.
   */
  function TimedOut(s: TxState, lim: Limits, now: nat, admitted: Option<nat>): TxState
  {
    var (t, requeue) := Scan(s, lim, now, s.sentOrder);
    match admitted
    case None => t
    case Some(k) => RequeueAll(t, requeue, k)
  }

  /** Numbers of the requeue list of which a copy is queued. */
  function Copied(requeue: seq<nat>, admitted: Option<nat>): (r: seq<nat>)
    ensures r <= requeue
  {
    match admitted
    case None => []
    case Some(k) => requeue[..Pushed(requeue, k)]
  }

  // -------------------------------------------------------------------------
  // Replay queue
  // -------------------------------------------------------------------------

  datatype LinkResult = LinkOk | LinkBusy | LinkError

  /** Takes the head of the replay queue; a busy link puts it back if the budget admits it. */
  function Replayed(s: TxState, now: nat, link: LinkResult, pushOk: bool): TxState
  {
    if s.replay == [] then s
    else
      var item := s.replay[0];
      var popped := s.(replay := s.replay[1..]);
      if item.number !in s.sent then popped
      else match link
        case LinkBusy => if pushOk then popped.(replay := popped.replay + [item]) else popped
        case LinkError => popped
        case LinkOk =>
          popped.(sent := s.sent[item.number := s.sent[item.number].(lastSendMs := now, queued := false)])
  }

  // -------------------------------------------------------------------------
  // Well-formed history
  // -------------------------------------------------------------------------

  ghost predicate Ascending(order: seq<nat>)
  {
    forall i, j :: 0 <= i < j < |order| ==> order[i] < order[j]
  }

  /** The order queue lists exactly the history, oldest first, and every number was already handed out. */
  ghost predicate HistoryOk(s: TxState, lim: Limits)
  {
    && Ascending(s.sentOrder)
    && (forall n :: n in s.sentOrder <==> n in s.sent)
    && (forall n :: n in s.sent ==> 1 <= n < s.nextSeq && s.sent[n].frame.number == n)
    && |s.sentOrder| <= lim.maxPending
  }

  /** At most one replay item per number, and one still in history is marked as queued. */
  ghost predicate ReplayOk(s: TxState)
  {
    && (forall i, j :: 0 <= i < j < |s.replay| ==> s.replay[i].number != s.replay[j].number)
    && (forall i :: 0 <= i < |s.replay| ==> s.replay[i].number < s.nextSeq)
    && (forall i :: 0 <= i < |s.replay| && s.replay[i].number in s.sent ==> s.sent[s.replay[i].number].queued)
  }

  ghost predicate RetriesOk(s: TxState, lim: Limits)
  {
    forall n :: n in s.sent ==> s.sent[n].retries <= lim.maxRetries
  }

  ghost predicate TxOk(s: TxState, lim: Limits)
  {
    HistoryOk(s, lim) && ReplayOk(s) && RetriesOk(s, lim)
  }

  lemma {:induction false} WithoutAt(order: seq<nat>, x: nat, n: nat)
    ensures n in Without(order, x) <==> n in order && n != x
    ensures |Without(order, x)| <= |order|
  {
    if order != [] {
      WithoutAt(order[1..], x, n);
    }
  }

  lemma {:induction false} WithoutAscending(order: seq<nat>, x: nat)
    requires Ascending(order)
    ensures Ascending(Without(order, x))
  {
    if order != [] {
      var head, rest := order[0], Without(order[1..], x);
      WithoutAscending(order[1..], x);
      forall i | 0 <= i < |rest| ensures head < rest[i] {
        WithoutAt(order[1..], x, rest[i]);
      }
    }
  }

  lemma WithoutMeaning(order: seq<nat>, x: nat)
    ensures forall n :: n in Without(order, x) <==> n in order && n != x
    ensures |Without(order, x)| <= |order|
    ensures Ascending(order) ==> Ascending(Without(order, x))
  {
    WithoutAt(order, x, x);
    forall n: nat ensures n in Without(order, x) <==> n in order && n != x {
      WithoutAt(order, x, n);
    }
    if Ascending(order) {
      WithoutAscending(order, x);
    }
  }

  /** On an ascending order queue the front-popping loop removes exactly the numbers covered by the ACK. */
  lemma {:induction false} AckedPrefixMeaning(order: seq<nat>, ack: nat)
    requires Ascending(order)
    ensures forall i :: 0 <= i < |order| ==> (order[i] <= ack <==> i < AckedPrefix(order, ack))
  {
    if order != [] && order[0] <= ack {
      AckedPrefixMeaning(order[1..], ack);
      assert forall i :: 1 <= i < |order| ==> order[i] == order[1..][i - 1];
    }
  }

  /**
    What an ACK does to a well-formed history, stated on numbers: cumulative mode forgets exactly
    the numbers up to the ACK, unordered mode exactly the one acknowledged, and nothing else moves.
   */
  lemma AckedMeaning(s: TxState, lim: Limits, mode: Mode, ack: nat)
    requires HistoryOk(s, lim)
    ensures var t := Acked(s, mode, ack);
            && (forall n :: n in t.sent <==> n in s.sent && (if mode.Ordered? then n > ack else n != ack))
            && (forall n :: n in t.sent ==> t.sent[n] == s.sent[n])
            && t.replay == s.replay && t.nextSeq == s.nextSeq
            && HistoryOk(t, lim)
  {
    if mode.Ordered? {
      AckedPrefixMeaning(s.sentOrder, ack);
      var k := AckedPrefix(s.sentOrder, ack);
      assert s.sentOrder == s.sentOrder[..k] + s.sentOrder[k..];
    } else {
      WithoutMeaning(s.sentOrder, ack);
    }
  }

  /** The two views of the history have the same size, so the capacity test on one bounds the other. */
  lemma HistorySize(s: TxState, lim: Limits)
    requires HistoryOk(s, lim)
    ensures |s.sent| == |s.sentOrder|
  {
    DistinctSize(s.sentOrder);
    assert s.sent.Keys == Elements(s.sentOrder);
  }

  // -------------------------------------------------------------------------
  // Every operation keeps the history and the replay queue well formed
  // -------------------------------------------------------------------------

  lemma AscendingAppend(order: seq<nat>, n: nat)
    requires Ascending(order) && forall m :: m in order ==> m < n
    ensures Ascending(order + [n])
  {
    assert forall i :: 0 <= i < |order| ==> order[i] in order;
  }

  lemma {:induction false} SubmitKeepsTxOk(s: TxState, lim: Limits, body: Bytes, now: nat, txOk: bool)
    requires TxOk(s, lim) && 1 <= s.nextSeq < U32_SIZE - 1
    ensures var (t, outcome) := Submit(s, lim, body, now, txOk);
            && TxOk(t, lim)
            && t.nextSeq == (if outcome.HistoryFull? then s.nextSeq else s.nextSeq + 1)
            && t.replay == s.replay
            && t.sent == (if outcome.Transmitted?
                          then s.sent[s.nextSeq := Sent(Frame(s.nextSeq, body), now, 0, false, false)]
                          else s.sent)
  {
    hide HistoryOk, ReplayOk, RetriesOk;
    HistorySize(s, lim);
    SubmitKeepsHistory(s, lim, body, now, txOk);
    SubmitKeepsReplay(s, lim, body, now, txOk);
    SubmitKeepsRetries(s, lim, body, now, txOk);
  }

  lemma {:induction false} SubmitKeepsHistory(s: TxState, lim: Limits, body: Bytes, now: nat, txOk: bool)
    requires HistoryOk(s, lim) && 1 <= s.nextSeq < U32_SIZE - 1 && |s.sent| == |s.sentOrder|
    ensures HistoryOk(Submit(s, lim, body, now, txOk).0, lim)
  {
    hide Ascending;
    AscendingAppend(s.sentOrder, s.nextSeq);
  }

  lemma {:induction false} SubmitKeepsReplay(s: TxState, lim: Limits, body: Bytes, now: nat, txOk: bool)
    requires ReplayOk(s) && 1 <= s.nextSeq < U32_SIZE - 1
    ensures ReplayOk(Submit(s, lim, body, now, txOk).0)
  {
  }

  lemma {:induction false} SubmitKeepsRetries(s: TxState, lim: Limits, body: Bytes, now: nat, txOk: bool)
    requires RetriesOk(s, lim)
    ensures RetriesOk(Submit(s, lim, body, now, txOk).0, lim)
  {
  }

  lemma AckedKeepsTxOk(s: TxState, lim: Limits, mode: Mode, ack: nat)
    requires TxOk(s, lim)
    ensures TxOk(Acked(s, mode, ack), lim)
  {
    AckedMeaning(s, lim, mode, ack);
  }

  lemma {:induction false} RequestedKeepsTxOk(s: TxState, lim: Limits, n: nat, pushOk: bool)
    requires TxOk(s, lim)
    ensures TxOk(Requested(s, n, pushOk), lim)
  {
    hide Ascending, ReplayOk;
    RequestedKeepsReplay(s, lim, n, pushOk);
  }

  lemma {:induction false} RequestedKeepsReplay(s: TxState, lim: Limits, n: nat, pushOk: bool)
    requires HistoryOk(s, lim) && ReplayOk(s)
    ensures ReplayOk(Requested(s, n, pushOk))
  {
    hide Ascending;
    if n in s.sent && !s.sent[n].queued {
      assert s.sent[n].frame.number == n;
      assert forall i :: 0 <= i < |s.replay| ==> s.replay[i].number != n;
    }
  }

  lemma {:induction false} ReplayedKeepsTxOk(s: TxState, lim: Limits, now: nat, link: LinkResult, pushOk: bool)
    requires TxOk(s, lim)
    ensures TxOk(Replayed(s, now, link, pushOk), lim)
  {
    hide Ascending, ReplayOk;
    ReplayedKeepsReplay(s, now, link, pushOk);
  }

  lemma {:induction false} ReplayedKeepsReplay(s: TxState, now: nat, link: LinkResult, pushOk: bool)
    requires ReplayOk(s)
    ensures ReplayOk(Replayed(s, now, link, pushOk))
  {
    var t := Replayed(s, now, link, pushOk);
    if s.replay != [] {
      var item := s.replay[0];
      assert forall i :: 0 <= i < |s.replay| - 1 ==> t.replay[i] == s.replay[i + 1];
      assert forall i :: 1 <= i < |s.replay| ==> s.replay[i].number != item.number;
    }
  }

  /** The first pass of the timeout scan seen from one number `n`: the rest of the snapshot is irrelevant. */
  lemma {:induction false} ScanAt(s: TxState, lim: Limits, now: nat, snapshot: seq<nat>, n: nat)
    requires Distinct(snapshot)
    ensures var (t, requeue) := Scan(s, lim, now, snapshot);
            var due := if n in snapshot then Classify(s, lim, now, n) else Leave;
            && (n in t.sent <==> n in s.sent && !due.Abandon?)
            && (n in t.sent ==> t.sent[n] == if due.Resend? then s.sent[n].(retries := s.sent[n].retries + 1)
               else s.sent[n])
            && (n in requeue <==> due.Resend?)
            && t.replay == s.replay && t.nextSeq == s.nextSeq
    decreases |snapshot|
  {
    if snapshot != [] {
      var head, tail := snapshot[0], snapshot[1..];
      var u := TimeoutOne(s, lim, now, head);
      ScanAt(u, lim, now, tail, n);
      assert n in snapshot <==> n == head || n in tail;
      assert head !in tail;
    }
  }

  /** Requeue order follows the snapshot. */
  lemma {:induction false} ScanRequeueOrder(s: TxState, lim: Limits, now: nat, snapshot: seq<nat>)
    requires Distinct(snapshot)
    ensures var requeue := Scan(s, lim, now, snapshot).1;
            Distinct(requeue) && forall n :: n in requeue ==> n in snapshot
    decreases |snapshot|
  {
    if snapshot != [] {
      var head, tail := snapshot[0], snapshot[1..];
      assert head !in tail;
      ScanRequeueOrder(TimeoutOne(s, lim, now, head), lim, now, tail);
    }
  }

  lemma {:induction false} ScanOrder(s: TxState, lim: Limits, now: nat, snapshot: seq<nat>)
    requires Ascending(s.sentOrder)
    requires forall n :: n in s.sentOrder <==> n in s.sent
    ensures var t := Scan(s, lim, now, snapshot).0;
            && Ascending(t.sentOrder)
            && |t.sentOrder| <= |s.sentOrder|
            && (forall n :: n in t.sentOrder <==> n in t.sent)
    decreases |snapshot|
  {
    if snapshot != [] {
      WithoutMeaning(s.sentOrder, snapshot[0]);
      ScanOrder(TimeoutOne(s, lim, now, snapshot[0]), lim, now, snapshot[1..]);
    }
  }

  /** How many numbers of the requeue list the second pass marks, and how many copies it queues. */
  function Marked(requeue: seq<nat>, accepted: nat): (r: nat)
    ensures r <= |requeue|
  {
    if accepted < |requeue| then accepted + 1 else |requeue|
  }

  function Pushed(requeue: seq<nat>, accepted: nat): (r: nat)
    ensures r <= Marked(requeue, accepted) <= |requeue|
  {
    if accepted < |requeue| then accepted else |requeue|
  }

  function FramesOf(s: TxState, ns: seq<nat>): (r: seq<Frame>)
    requires forall n :: n in ns ==> n in s.sent
    ensures |r| == |ns| && forall i :: 0 <= i < |ns| ==> r[i] == s.sent[ns[i]].frame
  {
    seq(|ns|, i requires 0 <= i < |ns| => s.sent[ns[i]].frame)
  }

  /** The second pass seen from one number. */
  lemma {:induction false} RequeueAllAt(s: TxState, requeue: seq<nat>, accepted: nat, n: nat)
    requires Distinct(requeue)
    requires forall m :: m in requeue ==> m in s.sent && !s.sent[m].queued
    ensures var t := RequeueAll(s, requeue, accepted);
            && (n in t.sent <==> n in s.sent)
            && (n in s.sent ==>
                  t.sent[n] == if n in requeue[..Marked(requeue, accepted)]
                               then s.sent[n].(queued := true, partialAcked := false) else s.sent[n])
            && t.nextSeq == s.nextSeq && t.sentOrder == s.sentOrder
    decreases |requeue|
  {
    if requeue != [] {
      var head, tail := requeue[0], requeue[1..];
      assert head in requeue && head !in tail;
      if accepted > 0 {
        RequeueAllAt(Requested(s, head, true), tail, accepted - 1, n);
        assert requeue[..Marked(requeue, accepted)] == [head] + tail[..Marked(tail, accepted - 1)];
      } else {
        assert requeue[..1] == [head];
      }
    }
  }

  lemma {:induction false} SameFrames(s: TxState, u: TxState, ns: seq<nat>)
    requires forall n :: n in ns ==> n in s.sent && n in u.sent && u.sent[n].frame == s.sent[n].frame
    ensures FramesOf(u, ns) == FramesOf(s, ns)
  {
  }

  lemma {:induction false} FramesOfFirst(s: TxState, ns: seq<nat>, k: nat)
    requires 0 < k <= |ns| && forall n :: n in ns ==> n in s.sent
    ensures FramesOf(s, ns)[..k] == [s.sent[ns[0]].frame] + FramesOf(s, ns[1..])[..k - 1]
  {
    hide FramesOf;
  }

  /** The second pass appends one copy of each accepted frame, in order. */
  lemma {:induction false} RequeueAllReplay(s: TxState, requeue: seq<nat>, accepted: nat)
    requires Distinct(requeue)
    requires forall m :: m in requeue ==> m in s.sent && !s.sent[m].queued
    ensures RequeueAll(s, requeue, accepted).replay
            == s.replay + FramesOf(s, requeue)[..Pushed(requeue, accepted)]
    decreases |requeue|
  {
    hide FramesOf;
    if requeue != [] && accepted > 0 {
      var head, tail := requeue[0], requeue[1..];
      assert head in requeue && head !in tail;
      var u := Requested(s, head, true);
      RequeueAllReplay(u, tail, accepted - 1);
      SameFrames(s, u, tail);
      FramesOfFirst(s, requeue, Pushed(requeue, accepted));
    } else if requeue != [] {
      assert requeue[0] in requeue;
    }
  }

  /**
    The whole timeout pass, number by number. A record survives unless it is due with its retries
    spent; a partially acknowledged, queued or recently sent record is left exactly as it was; a due
    record with retries left is charged one retry and keeps its bytes.
   */
  lemma TimedOutAt(s: TxState, lim: Limits, now: nat, admitted: Option<nat>, n: nat)
    requires HistoryOk(s, lim)
    ensures var t := TimedOut(s, lim, now, admitted);
            var due := Classify(s, lim, now, n);
            && (n in t.sent <==> n in s.sent && !due.Abandon?)
            && (n in t.sent && due.Leave? ==> t.sent[n] == s.sent[n])
            && (n in t.sent && due.Resend? ==>
                  && t.sent[n].retries == s.sent[n].retries + 1
                  && t.sent[n].frame == s.sent[n].frame)
            && t.nextSeq == s.nextSeq
  {
    var (u, requeue) := Scan(s, lim, now, s.sentOrder);
    ScanAt(s, lim, now, s.sentOrder, n);
    RequeueReady(s, lim, now);
    if admitted.Some? {
      RequeueAllAt(u, requeue, admitted.value, n);
    }
  }

  /** Every number the first pass selects is in history, not queued, and selected once. */
  lemma RequeueReady(s: TxState, lim: Limits, now: nat)
    requires HistoryOk(s, lim)
    ensures var (u, requeue) := Scan(s, lim, now, s.sentOrder);
            && Distinct(requeue)
            && u.replay == s.replay
            && forall m :: m in requeue ==>
                  && m in s.sent && Classify(s, lim, now, m).Resend?
                  && m in u.sent && !u.sent[m].queued && u.sent[m].frame == s.sent[m].frame
  {
    var (u, requeue) := Scan(s, lim, now, s.sentOrder);
    ScanRequeueOrder(s, lim, now, s.sentOrder);
    ScanAt(s, lim, now, s.sentOrder, 0);
    forall m | m in requeue
      ensures && m in s.sent && Classify(s, lim, now, m).Resend?
              && m in u.sent && !u.sent[m].queued && u.sent[m].frame == s.sent[m].frame
    {
      ScanAt(s, lim, now, s.sentOrder, m);
    }
  }

  /** A copy queued by a timeout pass is the unchanged frame of a record that was due, now marked as queued. */
  lemma TimedOutCopyAt(s: TxState, lim: Limits, now: nat, admitted: Option<nat>, i: nat)
    requires HistoryOk(s, lim)
    requires i < |Copied(Scan(s, lim, now, s.sentOrder).1, admitted)|
    ensures var (t, requeue) := (TimedOut(s, lim, now, admitted), Scan(s, lim, now, s.sentOrder).1);
            var m := requeue[i];
            && |t.replay| == |s.replay| + |Copied(requeue, admitted)|
            && m in s.sent && Classify(s, lim, now, m).Resend?
            && t.replay[|s.replay| + i] == s.sent[m].frame
            && m in t.sent && t.sent[m].queued
  {
    var (u, requeue) := Scan(s, lim, now, s.sentOrder);
    RequeueReady(s, lim, now);
    RequeueAllReplay(u, requeue, admitted.value);
    var m := requeue[i];
    assert m in requeue[..Marked(requeue, admitted.value)];
    RequeueAllAt(u, requeue, admitted.value, m);
  }

  /** Copies queued by a timeout pass: only of records that were due with retries left, each once, each now marked. */
  lemma TimedOutReplay(s: TxState, lim: Limits, now: nat, admitted: Option<nat>)
    requires HistoryOk(s, lim)
    ensures var t := TimedOut(s, lim, now, admitted);
            && |s.replay| <= |t.replay| && t.replay[..|s.replay|] == s.replay
            && (forall i :: |s.replay| <= i < |t.replay| ==>
                  && t.replay[i].number in s.sent
                  && t.replay[i] == s.sent[t.replay[i].number].frame
                  && Classify(s, lim, now, t.replay[i].number).Resend?
                  && t.replay[i].number in t.sent && t.sent[t.replay[i].number].queued)
            && (forall i, j :: |s.replay| <= i < j < |t.replay| ==> t.replay[i].number != t.replay[j].number)
  {
    var (u, requeue) := Scan(s, lim, now, s.sentOrder);
    RequeueReady(s, lim, now);
    var t := TimedOut(s, lim, now, admitted);
    if admitted.Some? {
      RequeueAllReplay(u, requeue, admitted.value);
    }
    var k := |s.replay|;
    assert |t.replay| == k + |Copied(requeue, admitted)|;
    forall i | k <= i < |t.replay|
      ensures && t.replay[i].number == requeue[i - k]
              && t.replay[i].number in s.sent
              && t.replay[i] == s.sent[t.replay[i].number].frame
              && Classify(s, lim, now, t.replay[i].number).Resend?
              && t.replay[i].number in t.sent && t.sent[t.replay[i].number].queued
    {
      TimedOutCopyAt(s, lim, now, admitted, i - k);
    }
  }

  lemma TimedOutHistory(s: TxState, lim: Limits, now: nat, admitted: Option<nat>)
    requires HistoryOk(s, lim)
    ensures HistoryOk(TimedOut(s, lim, now, admitted), lim)
  {
    ScanOrder(s, lim, now, s.sentOrder);
    var (u, requeue) := Scan(s, lim, now, s.sentOrder);
    var t := TimedOut(s, lim, now, admitted);
    RequeueReady(s, lim, now);
    if admitted.Some? {
      RequeueAllAt(u, requeue, admitted.value, 0);
    }
    TimedOutAt(s, lim, now, admitted, 0);
    forall n
      ensures n in t.sentOrder <==> n in t.sent
      ensures n in t.sent ==> n in s.sent && t.sent[n].frame == s.sent[n].frame
    {
      TimedOutAt(s, lim, now, admitted, n);
      if admitted.Some? {
        RequeueAllAt(u, requeue, admitted.value, n);
      }
    }
  }

  lemma TimedOutKeepsTxOk(s: TxState, lim: Limits, now: nat, admitted: Option<nat>)
    requires TxOk(s, lim)
    ensures TxOk(TimedOut(s, lim, now, admitted), lim)
  {
    TimedOutHistory(s, lim, now, admitted);
    TimedOutReplay(s, lim, now, admitted);
    var t := TimedOut(s, lim, now, admitted);
    forall n | n in t.sent ensures t.sent[n].retries <= lim.maxRetries {
      TimedOutAt(s, lim, now, admitted, n);
    }
    forall i | 0 <= i < |t.replay|
      ensures t.replay[i].number < t.nextSeq
      ensures t.replay[i].number in t.sent ==> t.sent[t.replay[i].number].queued
      ensures forall j :: i < j < |t.replay| ==> t.replay[i].number != t.replay[j].number
    {
      TimedOutAt(s, lim, now, admitted, t.replay[i].number);
      if i < |s.replay| {
        assert t.replay[i] == t.replay[..|s.replay|][i] == s.replay[i];
        forall j | i < j < |t.replay| ensures t.replay[i].number != t.replay[j].number {
          if j < |s.replay| {
            assert t.replay[j] == t.replay[..|s.replay|][j] == s.replay[j];
          }
        }
      }
    }
  }

  lemma ForgetOneMore(sent: map<nat, Sent>, gone: seq<nat>, n: nat)
    ensures Forget(sent, gone) - {n} == Forget(sent, gone + [n])
  {
  }

  // -------------------------------------------------------------------------
  // The same operations in place
  // -------------------------------------------------------------------------

  /** Sender-side state of one stream, updated by the relay's methods. */
  class StreamSender {
    const lim: Limits
    const mode: Mode
    var nextSeq: nat
    var sentOrder: seq<nat>
    var sent: map<nat, Sent>
    var replay: seq<Frame>

    ghost function State(): TxState
      reads this
    {
      TxState(nextSeq, sentOrder, sent, replay)
    }

    constructor (lim: Limits, mode: Mode)
      ensures State() == FRESH_TX && this.lim == lim && this.mode == mode
    {
      this.lim, this.mode := lim, mode;
      nextSeq, sentOrder, sent, replay := 1, [], map[], [];
    }

    method SendReliable(body: Bytes, now: nat, txOk: bool) returns (outcome: SendOutcome)
      modifies this
      ensures (State(), outcome) == Submit(old(State()), lim, body, now, txOk)
    {
      if |sent| >= lim.maxPending {
        return HistoryFull;
      }
      var n := nextSeq;
      nextSeq := AfterSeq(nextSeq);
      if !txOk {
        return TxFailed;
      }
      sentOrder := sentOrder + [n];
      sent := sent[n := Sent(Frame(n, body), now, 0, false, false)];
      outcome := Transmitted;
    }

    /** Drops one record and, by a pass over the order queue, its number. */
    method RemoveRecord(n: nat)
      modifies this
      ensures sent == Forget(old(sent), [n]) && sentOrder == Without(old(sentOrder), n)
      ensures nextSeq == old(nextSeq) && replay == old(replay)
    {
      sent := sent - {n};
      var kept := [];
      for i := 0 to |sentOrder|
        invariant sentOrder == old(sentOrder)
        invariant kept + Without(sentOrder[i..], n) == Without(sentOrder, n)
      {
        assert sentOrder[i..][0] == sentOrder[i] && sentOrder[i..][1..] == sentOrder[i + 1..];
        if sentOrder[i] != n {
          kept := kept + [sentOrder[i]];
        }
      }
      sentOrder := kept;
    }

    method HandleAck(ack: nat)
      modifies this
      ensures State() == Acked(old(State()), mode, ack)
    {
      if mode.Unordered? {
        RemoveRecord(ack);
        return;
      }
      ghost var s0 := State();
      ghost var popped := 0;
      assert Forget(sent, sentOrder[..0]) == sent;
      while sentOrder != [] && sentOrder[0] <= ack
        invariant popped <= |s0.sentOrder| && sentOrder == s0.sentOrder[popped..]
        invariant popped + AckedPrefix(sentOrder, ack) == AckedPrefix(s0.sentOrder, ack)
        invariant sent == Forget(s0.sent, s0.sentOrder[..popped])
        invariant nextSeq == s0.nextSeq && replay == s0.replay
        decreases |sentOrder|
      {
        var n := sentOrder[0];
        ForgetOneMore(s0.sent, s0.sentOrder[..popped], n);
        assert s0.sentOrder[..popped + 1] == s0.sentOrder[..popped] + [n];
        sentOrder := sentOrder[1..];
        sent := sent - {n};
        popped := popped + 1;
      }
    }

    method HandlePartialAck(n: nat)
      modifies this
      ensures State() == PartiallyAcked(old(State()), n)
    {
      if n in sent {
        sent := sent[n := sent[n].(partialAcked := true)];
      }
    }

    method QueueRetransmit(n: nat, pushOk: bool)
      modifies this
      ensures State() == Requested(old(State()), n, pushOk)
    {
      if n in sent && !sent[n].queued {
        var frame := sent[n].frame;
        sent := sent[n := sent[n].(queued := true, partialAcked := false)];
        if pushOk {
          replay := replay + [frame];
        }
      }
    }

    /** First phase of the timeout pass: charge or abandon each due record, collect what to requeue. */
    method ScanTimeouts(now: nat) returns (requeue: seq<nat>)
      modifies this
      ensures (State(), requeue) == Scan(old(State()), lim, now, old(sentOrder))
    {
      requeue := [];
      var snapshot := sentOrder;
      ghost var s0 := State();
      for i := 0 to |snapshot|
        invariant Scan(State(), lim, now, snapshot[i..]).0 == Scan(s0, lim, now, snapshot).0
        invariant requeue + Scan(State(), lim, now, snapshot[i..]).1 == Scan(s0, lim, now, snapshot).1
      {
        var n := snapshot[i];
        assert snapshot[i..][0] == n && snapshot[i..][1..] == snapshot[i + 1..];
        if n in sent && !sent[n].queued && ElapsedMs(now, sent[n].lastSendMs) >= lim.retransmitMs
           && !sent[n].partialAcked
        {
          if sent[n].retries >= lim.maxRetries {
            RemoveRecord(n);
          } else {
            sent := sent[n := sent[n].(retries := sent[n].retries + 1)];
            requeue := requeue + [n];
          }
        }
      }
      assert snapshot[|snapshot|..] == [];
      assert requeue + [] == requeue;
    }

    /** Second phase: `accepted` is how many replay pushes the shared budget admits before it refuses one. */
    method RequeueDue(requeue: seq<nat>, accepted: nat)
      modifies this
      ensures State() == RequeueAll(old(State()), requeue, accepted)
    {
      ghost var s0 := State();
      var left := accepted;
      for i := 0 to |requeue|
        invariant RequeueAll(State(), requeue[i..], left) == RequeueAll(s0, requeue, accepted)
      {
        assert requeue[i..][0] == requeue[i] && requeue[i..][1..] == requeue[i + 1..];
        if left == 0 {
          assert RequeueAll(State(), requeue[i..], 0) == Requested(State(), requeue[i], false);
          QueueRetransmit(requeue[i], false);
          return;
        }
        QueueRetransmit(requeue[i], true);
        left := left - 1;
      }
      assert requeue[|requeue|..] == [];
    }

    /** This stream's part of the pass over all streams. */
    method ProcessTimeouts(now: nat, admitted: Option<nat>)
      modifies this
      ensures State() == TimedOut(old(State()), lim, now, admitted)
    {
      var requeue := ScanTimeouts(now);
      if admitted.Some? {
        RequeueDue(requeue, admitted.value);
      }
    }

    method ProcessReplayItem(now: nat, link: LinkResult, pushOk: bool)
      modifies this
      ensures State() == Replayed(old(State()), now, link, pushOk)
    {
      if replay == [] {
        return;
      }
      var item := replay[0];
      replay := replay[1..];
      if item.number !in sent {
        return;
      }
      match link {
        case LinkBusy =>
          if pushOk {
            replay := replay + [item];
          }
        case LinkError =>
        case LinkOk =>
          sent := sent[item.number := sent[item.number].(lastSendMs := now, queued := false)];
      }
    }
  }
}
