/**
  One reliable stream end to end: a sender, a receiver, and a network that loses, repeats and
  reorders. Steps are the relay's methods, one atomic step each; the environment chooses TX results,
  what the shared memory budget admits or reclaims, and which message arrives next.
 */
module ReliableSystem {
  import opened Basics
  import opened Wrappers
  import opened ReliableTypes
  import opened ReliableSender
  import opened ReliableReceiver

  datatype Msg = Data(frame: Frame) | Ack(number: nat) | PartialAck(number: nat) | Request(number: nat)

  /**
    What happened so far: bodies in the order they were numbered, numbers that entered history,
    frames released in order, numbers accepted out of order, numbers whose retries ran out, one entry
    for every retry that a timeout charged to a number, and one for every copy that a timeout queued.
   */
  datatype Log = Log(
    numbered: seq<Bytes>,
    entered: set<nat>,
    released: seq<Frame>,
    accepted: set<nat>,
    spent: set<nat>,
    charges: multiset<nat>,
    copies: multiset<nat>)

  /** `net` holds every message ever put on the link: delivery picks any of them, any number of times, or never. */
  datatype World = World(tx: TxState, rx: RxState, net: set<Msg>, log: Log)

  const START: World := World(FRESH_TX, FRESH_RX, {}, Log([], {}, [], {}, {}, multiset{}, multiset{}))

  datatype Step =
    | SubmitFrame(body: Bytes, now: nat, txOk: bool, onWire: bool)
    | ReceiveData(frame: Frame, roomOk: bool, evicted: set<nat>, replied: bool)
    | ReceiveAck(ack: nat)
    | ReceivePartialAck(partial: nat)
    | ReceiveRequest(request: nat, pushOk: bool)
    | Timeout(now: nat, admitted: Option<nat>)
    | ReplayOne(now: nat, link: LinkResult, pushOk: bool, onWire: bool)
    | ReclaimReplay(index: nat)
    | ReclaimBuffered(numbers: set<nat>)

  function Replies(verdict: Verdict): set<Msg>
  {
    match verdict
    case Stale(ack) => {Ack(ack)}
    case Held(partialAck, request) => {PartialAck(partialAck), Request(request)}
    case Refused => {}
    case Released(_, ack) => {Ack(ack)}
  }

  function AbandonedNow(s: TxState, lim: Limits, now: nat): set<nat>
  {
    set n | n in s.sent && Classify(s, lim, now, n).Abandon?
  }

  /** The numbers that a timeout pass charges, in requeue order. */
  function DueAt(s: TxState, lim: Limits, now: nat): seq<nat>
  {
    Scan(s, lim, now, s.sentOrder).1
  }

  /** A step that is not enabled leaves the world alone. A damaged frame may make the peer request any number. */
  function Next(w: World, lim: Limits, mode: Mode, step: Step): World
  {
    match step
    case SubmitFrame(body, now, txOk, onWire) =>
      var (tx, outcome) := Submit(w.tx, lim, body, now, txOk);
      if outcome.HistoryFull? then w
      else
        w.(tx := tx,
           net := w.net + (if onWire then {Data(Frame(w.tx.nextSeq, body))} else {}),
           log := w.log.(numbered := w.log.numbered + [body],
                         entered := w.log.entered + (if outcome.Transmitted? then {w.tx.nextSeq} else {})))
    case ReceiveData(frame, roomOk, evicted, replied) =>
      if Data(frame) !in w.net then w
      else if mode.Unordered? then
        if !replied then w
        else w.(net := w.net + {Ack(frame.number)}, log := w.log.(accepted := w.log.accepted + {frame.number}))
      else
        var (rx, verdict) := Receive(w.rx, lim, frame, roomOk, evicted);
        w.(rx := rx,
           net := w.net + (if replied then Replies(verdict) else {}),
           log := if verdict.Released? then w.log.(released := w.log.released + verdict.frames) else w.log)
    case ReceiveAck(ack) => if Ack(ack) in w.net then w.(tx := Acked(w.tx, mode, ack)) else w
    case ReceivePartialAck(n) => if PartialAck(n) in w.net then w.(tx := PartiallyAcked(w.tx, n)) else w
    case ReceiveRequest(n, pushOk) => w.(tx := Requested(w.tx, n, pushOk))
    case Timeout(now, admitted) =>
      w.(tx := TimedOut(w.tx, lim, now, admitted),
         log := w.log.(spent := w.log.spent + AbandonedNow(w.tx, lim, now),
                       charges := w.log.charges + multiset(DueAt(w.tx, lim, now)),
                       copies := w.log.copies + multiset(Copied(DueAt(w.tx, lim, now), admitted))))
    case ReplayOne(now, link, pushOk, onWire) =>
      w.(tx := Replayed(w.tx, now, link, pushOk),
         net := w.net + (if onWire && w.tx.replay != [] && w.tx.replay[0].number in w.tx.sent
                         then {Data(w.tx.replay[0])} else {}))
    case ReclaimReplay(i) =>
      if i < |w.tx.replay| then w.(tx := w.tx.(replay := w.tx.replay[..i] + w.tx.replay[i + 1..])) else w
    case ReclaimBuffered(ns) => w.(rx := w.rx.(buffered := w.rx.buffered - ns))
  }

  function Run(w: World, lim: Limits, mode: Mode, steps: seq<Step>): World
    decreases |steps|
  {
    if steps == [] then w else Run(Next(w, lim, mode, steps[0]), lim, mode, steps[1..])
  }

  // -------------------------------------------------------------------------
  // The invariant
  // -------------------------------------------------------------------------

  /** The frame carries exactly the bytes that were given this number. */
  predicate Authentic(log: Log, f: Frame)
  {
    1 <= f.number <= |log.numbered| && f.body == log.numbered[f.number - 1]
  }

  ghost predicate SenderOk(w: World, lim: Limits)
  {
    && TxOk(w.tx, lim)
    && w.tx.nextSeq == |w.log.numbered| + 1 < U32_SIZE
    && (forall n :: n in w.tx.sent ==> Authentic(w.log, w.tx.sent[n].frame))
    && (forall i :: 0 <= i < |w.tx.replay| ==> Authentic(w.log, w.tx.replay[i]))
  }

  ghost predicate NetOk(w: World)
  {
    forall f :: Data(f) in w.net ==> Authentic(w.log, f)
  }

  ghost predicate BufferOk(w: World)
  {
    && 1 <= w.rx.expected <= |w.log.numbered| + 1
    && (forall n :: n in w.rx.buffered ==>
          n > w.rx.expected && w.rx.buffered[n].number == n && Authentic(w.log, w.rx.buffered[n]))
  }

  /** The released frames are the first `expected - 1` numbered frames, in order, byte for byte. */
  ghost predicate ReleasedOk(w: World)
  {
    && |w.log.released| == w.rx.expected - 1 <= |w.log.numbered|
    && (forall i :: 0 <= i < |w.log.released| ==> w.log.released[i] == Frame(i + 1, w.log.numbered[i]))
  }

  /** The receiving relay has this frame: released in order, or accepted if the stream is unordered. */
  predicate Settled(w: World, mode: Mode, n: nat)
  {
    if mode.Ordered? then n < w.rx.expected else n in w.log.accepted
  }

  ghost predicate AcksOk(w: World, mode: Mode)
  {
    forall n :: Ack(n) in w.net ==> Settled(w, mode, n)
  }

  ghost predicate ForgottenOk(w: World, mode: Mode)
  {
    && (forall n :: n in w.tx.sent ==> n in w.log.entered)
    && (forall n :: n in w.log.entered ==> n < w.tx.nextSeq)
    && (forall n :: n in w.log.entered && n !in w.tx.sent ==> Settled(w, mode, n) || n in w.log.spent)
  }

  ghost predicate RetryCountOk(w: World, lim: Limits)
  {
    && (forall n :: w.log.copies[n] <= w.log.charges[n] <= lim.maxRetries)
    && (forall n :: n in w.tx.sent ==> w.tx.sent[n].retries == w.log.charges[n])
    && (forall n :: n in w.log.spent ==> w.log.charges[n] == lim.maxRetries)
    && (forall n :: n in w.log.charges ==> n < w.tx.nextSeq)
  }

  ghost predicate Inv(w: World, lim: Limits, mode: Mode)
  {
    && SenderOk(w, lim)
    && NetOk(w)
    && BufferOk(w)
    && (mode.Ordered? ==> ReleasedOk(w))
    && AcksOk(w, mode)
    && ForgottenOk(w, mode)
    && RetryCountOk(w, lim)
  }

  lemma StartOk(lim: Limits, mode: Mode)
    ensures Inv(START, lim, mode)
  {
  }

  /** Numbering one more frame keeps every earlier frame genuine. */
  lemma NumberingGrows(log: Log, later: Log)
    requires log.numbered <= later.numbered
    ensures forall f :: Authentic(log, f) ==> Authentic(later, f)
  {
  }

  lemma SubmitSender(w: World, lim: Limits, mode: Mode, step: Step)
    requires SenderOk(w, lim) && step.SubmitFrame?
    requires |Next(w, lim, mode, step).log.numbered| + 1 < U32_SIZE
    ensures SenderOk(Next(w, lim, mode, step), lim)
  {
    hide HistoryOk, ReplayOk, RetriesOk;
    if !Submit(w.tx, lim, step.body, step.now, step.txOk).1.HistoryFull? {
      SubmitKeepsTxOk(w.tx, lim, step.body, step.now, step.txOk);
      NumberingGrows(w.log, Next(w, lim, mode, step).log);
    }
  }

  lemma SubmitLog(w: World, lim: Limits, mode: Mode, step: Step)
    requires ForgottenOk(w, mode) && RetryCountOk(w, lim) && SenderOk(w, lim) && step.SubmitFrame?
    requires |Next(w, lim, mode, step).log.numbered| + 1 < U32_SIZE
    ensures ForgottenOk(Next(w, lim, mode, step), mode) && RetryCountOk(Next(w, lim, mode, step), lim)
  {
    hide HistoryOk, ReplayOk, RetriesOk, Authentic;
    if !Submit(w.tx, lim, step.body, step.now, step.txOk).1.HistoryFull? {
      SubmitKeepsTxOk(w.tx, lim, step.body, step.now, step.txOk);
      var v := Next(w, lim, mode, step);
      assert w.log.charges[w.tx.nextSeq] == 0;
      assert v.log.charges == w.log.charges && v.log.copies == w.log.copies;
      assert v.log.spent == w.log.spent && v.rx == w.rx;
    }
  }

  lemma SubmitStep(w: World, lim: Limits, mode: Mode, step: Step)
    requires Inv(w, lim, mode) && step.SubmitFrame?
    requires |Next(w, lim, mode, step).log.numbered| + 1 < U32_SIZE
    ensures Inv(Next(w, lim, mode, step), lim, mode)
  {
    SubmitSender(w, lim, mode, step);
    SubmitLog(w, lim, mode, step);
    SubmitNet(w, lim, mode, step);
  }

  lemma SubmitNet(w: World, lim: Limits, mode: Mode, step: Step)
    requires NetOk(w) && BufferOk(w) && AcksOk(w, mode) && (mode.Ordered? ==> ReleasedOk(w))
    requires w.tx.nextSeq == |w.log.numbered| + 1 && step.SubmitFrame?
    ensures var v := Next(w, lim, mode, step);
            NetOk(v) && BufferOk(v) && AcksOk(v, mode) && (mode.Ordered? ==> ReleasedOk(v))
  {
    NumberingGrows(w.log, Next(w, lim, mode, step).log);
  }

  /**
    The new sender state has records of the old one only, unchanged but for their flags, and copies of old
    frames only.
   */
  ghost predicate InventsNothing(s: TxState, t: TxState)
  {
    && t.nextSeq == s.nextSeq
    && (forall n :: n in t.sent ==>
          n in s.sent && t.sent[n].frame == s.sent[n].frame && t.sent[n].retries == s.sent[n].retries)
    && (forall f :: f in t.replay ==> f in s.replay || (f.number in s.sent && f == s.sent[f.number].frame))
  }

  /** A step that touches only the sender keeps the invariant if it invents nothing and forgets only settled frames. */
  lemma SenderOnlyStep(w: World, lim: Limits, mode: Mode, tx: TxState)
    requires Inv(w, lim, mode)
    requires TxOk(tx, lim) && InventsNothing(w.tx, tx)
    requires forall n :: n in w.tx.sent && n !in tx.sent ==> Settled(w, mode, n)
    ensures Inv(w.(tx := tx), lim, mode)
  {
    var v := w.(tx := tx);
    assert forall f :: f in w.tx.replay ==> Authentic(w.log, f);
    assert SenderOk(v, lim);
    assert ForgottenOk(v, mode);
    assert RetryCountOk(v, lim);
    assert AcksOk(v, mode) && NetOk(v) && BufferOk(v);
  }

  lemma AckStep(w: World, lim: Limits, mode: Mode, ack: nat)
    requires Inv(w, lim, mode)
    ensures Inv(Next(w, lim, mode, ReceiveAck(ack)), lim, mode)
  {
    if Ack(ack) in w.net {
      AckedKeepsTxOk(w.tx, lim, mode, ack);
      AckedMeaning(w.tx, lim, mode, ack);
      SenderOnlyStep(w, lim, mode, Acked(w.tx, mode, ack));
    }
  }

  lemma RequestedInventsNothing(s: TxState, n: nat, pushOk: bool)
    ensures InventsNothing(s, Requested(s, n, pushOk))
    ensures n in s.sent ==> Requested(s, n, pushOk).sent.Keys == s.sent.Keys
    requires forall m :: m in s.sent ==> s.sent[m].frame.number == m
  {
  }

  lemma RequestStep(w: World, lim: Limits, mode: Mode, n: nat, pushOk: bool)
    requires Inv(w, lim, mode)
    ensures Inv(Next(w, lim, mode, ReceiveRequest(n, pushOk)), lim, mode)
  {
    RequestedKeepsTxOk(w.tx, lim, n, pushOk);
    RequestedInventsNothing(w.tx, n, pushOk);
    SenderOnlyStep(w, lim, mode, Requested(w.tx, n, pushOk));
  }

  lemma PartiallyAckedKeepsTxOk(s: TxState, lim: Limits, n: nat)
    requires TxOk(s, lim)
    ensures TxOk(PartiallyAcked(s, n), lim)
    ensures InventsNothing(s, PartiallyAcked(s, n))
    ensures PartiallyAcked(s, n).sent.Keys == s.sent.Keys
  {
    hide Ascending;
  }

  lemma PartialAckStep(w: World, lim: Limits, mode: Mode, n: nat)
    requires Inv(w, lim, mode)
    ensures Inv(Next(w, lim, mode, ReceivePartialAck(n)), lim, mode)
  {
    hide InventsNothing;
    PartiallyAckedKeepsTxOk(w.tx, lim, n);
    SenderOnlyStep(w, lim, mode, PartiallyAcked(w.tx, n));
  }

  lemma ReplayedInventsNothing(s: TxState, now: nat, link: LinkResult, pushOk: bool)
    ensures InventsNothing(s, Replayed(s, now, link, pushOk))
    ensures Replayed(s, now, link, pushOk).sent.Keys == s.sent.Keys
  {
    if s.replay != [] {
      assert s.replay == [s.replay[0]] + s.replay[1..];
    }
  }

  lemma ReplayStep(w: World, lim: Limits, mode: Mode, step: Step)
    requires Inv(w, lim, mode) && step.ReplayOne?
    ensures Inv(Next(w, lim, mode, step), lim, mode)
  {
    hide TxOk, InventsNothing, Replayed;
    var tx := Replayed(w.tx, step.now, step.link, step.pushOk);
    ReplayedKeepsTxOk(w.tx, lim, step.now, step.link, step.pushOk);
    ReplayedInventsNothing(w.tx, step.now, step.link, step.pushOk);
    if step.onWire && w.tx.replay != [] && w.tx.replay[0].number in w.tx.sent {
      var v := w.(net := w.net + {Data(w.tx.replay[0])});
      MoreData(w, lim, mode, w.tx.replay[0]);
      SenderOnlyStep(v, lim, mode, tx);
      assert Next(w, lim, mode, step) == v.(tx := tx);
    } else {
      SenderOnlyStep(w, lim, mode, tx);
      assert Next(w, lim, mode, step) == w.(tx := tx);
    }
  }

  /** Putting one more genuine frame on the link is harmless. */
  lemma MoreData(w: World, lim: Limits, mode: Mode, f: Frame)
    requires Inv(w, lim, mode) && Authentic(w.log, f)
    ensures Inv(w.(net := w.net + {Data(f)}), lim, mode)
  {
    var v := w.(net := w.net + {Data(f)});
    assert NetOk(v) && AcksOk(v, mode);
    assert SenderOk(v, lim) && BufferOk(v);
    assert ForgottenOk(v, mode) && RetryCountOk(v, lim);
  }

  lemma ReclaimReplayKeepsTxOk(s: TxState, lim: Limits, i: nat)
    requires TxOk(s, lim) && i < |s.replay|
    ensures var t := s.(replay := s.replay[..i] + s.replay[i + 1..]); TxOk(t, lim) && InventsNothing(s, t)
  {
    var t := s.(replay := s.replay[..i] + s.replay[i + 1..]);
    assert forall k :: 0 <= k < |t.replay| ==> t.replay[k] == s.replay[if k < i then k else k + 1];
  }

  lemma ReclaimReplayStep(w: World, lim: Limits, mode: Mode, i: nat)
    requires Inv(w, lim, mode)
    ensures Inv(Next(w, lim, mode, ReclaimReplay(i)), lim, mode)
  {
    if i < |w.tx.replay| {
      ReclaimReplayKeepsTxOk(w.tx, lim, i);
      SenderOnlyStep(w, lim, mode, w.tx.(replay := w.tx.replay[..i] + w.tx.replay[i + 1..]));
    }
  }

  lemma ReclaimBufferedStep(w: World, lim: Limits, mode: Mode, ns: set<nat>)
    requires Inv(w, lim, mode)
    ensures Inv(Next(w, lim, mode, ReclaimBuffered(ns)), lim, mode)
  {
  }

  /** A timeout pass seen from one number, together with what it adds to the log. */
  lemma TimeoutAt(w: World, lim: Limits, now: nat, admitted: Option<nat>, n: nat)
    requires SenderOk(w, lim)
    ensures var s, t := w.tx, TimedOut(w.tx, lim, now, admitted);
            var charged := multiset(DueAt(s, lim, now))[n];
            && (n in t.sent <==> n in s.sent && n !in AbandonedNow(s, lim, now))
            && (n in t.sent ==> t.sent[n].frame == s.sent[n].frame && t.sent[n].retries == s.sent[n].retries + charged)
            && (n in AbandonedNow(s, lim, now) ==> s.sent[n].retries >= lim.maxRetries && charged == 0)
            && (charged != 0 ==> n in s.sent && s.sent[n].retries < lim.maxRetries && charged == 1)
            && t.nextSeq == s.nextSeq
  {
    var s := w.tx;
    TimedOutAt(s, lim, now, admitted, n);
    ScanAt(s, lim, now, s.sentOrder, n);
    ScanRequeueOrder(s, lim, now, s.sentOrder);
    DistinctMultiplicity(DueAt(s, lim, now), n);
  }

  /** Only a charged number is copied, and once. */
  lemma {:induction false} CopiedAt(w: World, lim: Limits, now: nat, admitted: Option<nat>, n: nat)
    requires SenderOk(w, lim)
    ensures var due := DueAt(w.tx, lim, now);
            && multiset(due)[n] == (if n in due then 1 else 0)
            && multiset(Copied(due, admitted))[n] == (if n in Copied(due, admitted) then 1 else 0)
            && (n in Copied(due, admitted) ==> n in due)
  {
    hide Scan;
    var due := DueAt(w.tx, lim, now);
    ScanRequeueOrder(w.tx, lim, now, w.tx.sentOrder);
    DistinctMultiplicity(due, n);
    var copied := Copied(due, admitted);
    assert Distinct(copied) by {
      assert forall i :: 0 <= i < |copied| ==> copied[i] == due[i];
    }
    DistinctMultiplicity(copied, n);
  }

  lemma TimeoutSender(w: World, lim: Limits, now: nat, admitted: Option<nat>)
    requires SenderOk(w, lim)
    ensures SenderOk(w.(tx := TimedOut(w.tx, lim, now, admitted)), lim)
  {
    var s, t := w.tx, TimedOut(w.tx, lim, now, admitted);
    TimedOutKeepsTxOk(s, lim, now, admitted);
    TimedOutReplay(s, lim, now, admitted);
    TimeoutAt(w, lim, now, admitted, 0);
    forall n | n in t.sent ensures Authentic(w.log, t.sent[n].frame) {
      TimeoutAt(w, lim, now, admitted, n);
    }
    forall i | 0 <= i < |t.replay| ensures Authentic(w.log, t.replay[i]) {
      if i < |s.replay| {
        assert t.replay[i] == t.replay[..|s.replay|][i] == s.replay[i];
      }
    }
  }

  lemma TimeoutStep(w: World, lim: Limits, mode: Mode, now: nat, admitted: Option<nat>)
    requires Inv(w, lim, mode)
    ensures Inv(Next(w, lim, mode, Timeout(now, admitted)), lim, mode)
  {
    hide Scan, TimedOut, TxOk, Copied;
    var v := Next(w, lim, mode, Timeout(now, admitted));
    TimeoutSender(w, lim, now, admitted);
    assert SenderOk(v, lim);
    forall n: nat
      ensures n in v.tx.sent ==> n in v.log.entered && v.tx.sent[n].retries == v.log.charges[n]
      ensures n in v.log.entered ==> n < v.tx.nextSeq
      ensures n in v.log.entered && n !in v.tx.sent ==> Settled(v, mode, n) || n in v.log.spent
      ensures v.log.copies[n] <= v.log.charges[n] <= lim.maxRetries
      ensures n in v.log.spent ==> v.log.charges[n] == lim.maxRetries
      ensures n in v.log.charges ==> n < v.tx.nextSeq
    {
      TimeoutAt(w, lim, now, admitted, n);
      CopiedAt(w, lim, now, admitted, n);
    }
  }

  lemma {:induction false} DistinctMultiplicity(ns: seq<nat>, n: nat)
    requires Distinct(ns)
    ensures multiset(ns)[n] == if n in ns then 1 else 0
  {
    if ns != [] {
      assert ns == [ns[0]] + ns[1..];
      DistinctMultiplicity(ns[1..], n);
    }
  }

  lemma DataStep(w: World, lim: Limits, mode: Mode, step: Step)
    requires Inv(w, lim, mode) && step.ReceiveData?
    ensures Inv(Next(w, lim, mode, step), lim, mode)
  {
    hide TxOk, Buffered, Drain;
    var f := step.frame;
    if Data(f) in w.net && mode.Ordered? {
      assert Authentic(w.log, f);
      if f.number == w.rx.expected {
        assert (f.number + 1) % U32_SIZE == f.number + 1;
        assert Next(w, lim, mode, step) == AfterRelease(w, f, step.replied);
        ReleaseStep(w, lim, f, step.replied);
      } else if f.number > w.rx.expected {
        EarlyStep(w, lim, step);
      }
    }
  }

  lemma EarlyStep(w: World, lim: Limits, step: Step)
    requires Inv(w, lim, Ordered) && step.ReceiveData?
    requires Data(step.frame) in w.net && step.frame.number > w.rx.expected
    ensures Inv(Next(w, lim, Ordered, step), lim, Ordered)
  {
    var v := Next(w, lim, Ordered, step);
    assert Authentic(w.log, step.frame);
    BufferedAddsOnlyTheFrame(w.rx, lim, step.frame, step.roomOk, step.evicted);
    assert BufferOk(v);
    assert v.net <= w.net + {PartialAck(step.frame.number), Request(w.rx.expected)};
    assert v.tx == w.tx && v.log == w.log && v.rx.expected == w.rx.expected;
  }

  /** After a release the buffer holds no number up to and including the new expected one. */
  lemma ReleaseBuffer(w: World, frame: Frame)
    requires BufferOk(w) && |w.log.numbered| + 1 < U32_SIZE
    requires Authentic(w.log, frame) && frame.number == w.rx.expected
    ensures var d := Drain(w.rx.buffered, frame.number + 1, frame.number);
            && BufferOk(w.(rx := RxState(d.next, d.rest)))
            && d.next == frame.number + 1 + |d.frames| && d.last == d.next - 1
  {
    var e := frame.number;
    var bound := |w.log.numbered| + 1;
    var d := Drain(w.rx.buffered, e + 1, e);
    DrainEnd(w.rx.buffered, e + 1, e, bound);
    forall n | n in d.rest
      ensures n > d.next && n in w.rx.buffered && d.rest[n] == w.rx.buffered[n]
    {
      DrainAt(w.rx.buffered, e + 1, e, bound, n);
    }
    assert d.next !in d.rest;
  }

  /** The released run consists of the next numbered frames. */
  lemma ReleaseFrames(w: World, frame: Frame, i: nat)
    requires BufferOk(w) && |w.log.numbered| + 1 < U32_SIZE
    requires Authentic(w.log, frame) && frame.number == w.rx.expected
    requires i <= |Drain(w.rx.buffered, frame.number + 1, frame.number).frames|
    ensures var d := Drain(w.rx.buffered, frame.number + 1, frame.number);
            var e := frame.number;
            e - 1 + i < |w.log.numbered| && ([frame] + d.frames)[i] == Frame(e + i, w.log.numbered[e - 1 + i])
  {
    var e := frame.number;
    var bound := |w.log.numbered| + 1;
    DrainEnd(w.rx.buffered, e + 1, e, bound);
    if i > 0 {
      DrainAt(w.rx.buffered, e + 1, e, bound, e + i);
    }
  }

  lemma ReleaseLog(w: World, frame: Frame)
    requires BufferOk(w) && ReleasedOk(w) && |w.log.numbered| + 1 < U32_SIZE
    requires Authentic(w.log, frame) && frame.number == w.rx.expected
    ensures var d := Drain(w.rx.buffered, frame.number + 1, frame.number);
            ReleasedOk(w.(rx := RxState(d.next, d.rest),
                log := w.log.(released := w.log.released + ([frame] + d.frames))))
  {
    var d := Drain(w.rx.buffered, frame.number + 1, frame.number);
    var e, released := frame.number, w.log.released + ([frame] + d.frames);
    ReleaseBuffer(w, frame);
    forall i | 0 <= i < |released|
      ensures released[i] == Frame(i + 1, w.log.numbered[i])
    {
      if i >= e - 1 {
        ReleaseFrames(w, frame, i - (e - 1));
      }
    }
  }

  /** Advancing the receiver and acknowledging what it now has keeps every other part of the invariant. */
  lemma ReceiverAdvances(w: World, lim: Limits, v: World)
    requires Inv(w, lim, Ordered)
    requires v.tx == w.tx && v.log == w.log.(released := v.log.released)
    requires w.rx.expected <= v.rx.expected && BufferOk(v) && ReleasedOk(v)
    requires forall m :: m in v.net ==> m in w.net || (m.Ack? && m.number < v.rx.expected)
    ensures Inv(v, lim, Ordered)
  {
    assert forall f :: Authentic(w.log, f) == Authentic(v.log, f);
    assert SenderOk(v, lim) && NetOk(v);
    assert AcksOk(v, Ordered) && ForgottenOk(v, Ordered) && RetryCountOk(v, lim);
  }

  function AfterRelease(w: World, f: Frame, replied: bool): World
  {
    var d := Drain(w.rx.buffered, f.number + 1, f.number);
    w.(rx := RxState(d.next, d.rest),
       net := w.net + (if replied then {Ack(d.last)} else {}),
       log := w.log.(released := w.log.released + ([f] + d.frames)))
  }

  lemma ReleaseStep(w: World, lim: Limits, f: Frame, replied: bool)
    requires Inv(w, lim, Ordered)
    requires Authentic(w.log, f) && f.number == w.rx.expected
    ensures Inv(AfterRelease(w, f, replied), lim, Ordered)
  {
    var v := AfterRelease(w, f, replied);
    ReleaseBuffer(w, f);
    ReleaseLog(w, f);
    assert BufferOk(v) && ReleasedOk(v);
    ReceiverAdvances(w, lim, v);
  }

  lemma NextKeepsInv(w: World, lim: Limits, mode: Mode, step: Step)
    requires Inv(w, lim, mode)
    requires |Next(w, lim, mode, step).log.numbered| + 1 < U32_SIZE
    ensures Inv(Next(w, lim, mode, step), lim, mode)
  {
    match step {
      case SubmitFrame(_, _, _, _) => SubmitStep(w, lim, mode, step);
      case ReceiveData(_, _, _, _) => DataStep(w, lim, mode, step);
      case ReceiveAck(ack) => AckStep(w, lim, mode, ack);
      case ReceivePartialAck(n) => PartialAckStep(w, lim, mode, n);
      case ReceiveRequest(n, pushOk) => RequestStep(w, lim, mode, n, pushOk);
      case Timeout(now, admitted) => TimeoutStep(w, lim, mode, now, admitted);
      case ReplayOne(_, _, _, _) => ReplayStep(w, lim, mode, step);
      case ReclaimReplay(i) => ReclaimReplayStep(w, lim, mode, i);
      case ReclaimBuffered(ns) => ReclaimBufferedStep(w, lim, mode, ns);
    }
  }

  // -------------------------------------------------------------------------
  // Whole runs
  // -------------------------------------------------------------------------

  lemma {:induction false} RunNumbersGrow(w: World, lim: Limits, mode: Mode, steps: seq<Step>)
    ensures |w.log.numbered| <= |Run(w, lim, mode, steps).log.numbered|
    decreases |steps|
  {
    if steps != [] {
      RunNumbersGrow(Next(w, lim, mode, steps[0]), lim, mode, steps[1..]);
    }
  }

  lemma {:induction false} RunSnoc(w: World, lim: Limits, mode: Mode, steps: seq<Step>, step: Step)
    ensures Run(w, lim, mode, steps + [step]) == Next(Run(w, lim, mode, steps), lim, mode, step)
    ensures |Run(w, lim, mode, steps).log.numbered| <= |Run(w, lim, mode, steps + [step]).log.numbered|
    decreases |steps|
  {
    hide Next;
    if steps == [] {
      assert ([] + [step])[1..] == [];
      RunNumbersGrow(w, lim, mode, [step]);
      assert Run(Next(w, lim, mode, step), lim, mode, []) == Next(w, lim, mode, step);
      assert [] + [step] == [step];
    } else {
      assert (steps + [step])[1..] == steps[1..] + [step];
      RunSnoc(Next(w, lim, mode, steps[0]), lim, mode, steps[1..], step);
    }
  }

  /** Every state reached before the u32 numbering wraps satisfies the invariant. */
  lemma {:induction false} RunKeepsInv(w: World, lim: Limits, mode: Mode, steps: seq<Step>)
    requires Inv(w, lim, mode)
    requires |Run(w, lim, mode, steps).log.numbered| + 1 < U32_SIZE
    ensures Inv(Run(w, lim, mode, steps), lim, mode)
    decreases |steps|
  {
    if steps != [] {
      var v := Next(w, lim, mode, steps[0]);
      RunNumbersGrow(v, lim, mode, steps[1..]);
      NextKeepsInv(w, lim, mode, steps[0]);
      RunKeepsInv(v, lim, mode, steps[1..]);
    }
  }

  lemma {:induction false} SafeWhenInv(w: World, lim: Limits)
    requires Inv(w, lim, Ordered)
    ensures |w.log.released| == w.rx.expected - 1 <= |w.log.numbered|
    ensures forall i :: 0 <= i < |w.log.released| ==> w.log.released[i] == Frame(i + 1, w.log.numbered[i])
    ensures forall n :: n in w.rx.buffered ==> w.rx.expected < n <= |w.log.numbered|
                                               && w.rx.buffered[n] == Frame(n, w.log.numbered[n - 1])
  {
    hide SenderOk, NetOk, AcksOk, ForgottenOk, RetryCountOk;
  }

  /**
    Ordered link safety. Whatever is lost, repeated, reordered or reclaimed, the frames released so
    far are exactly the first `expected - 1` numbered ones: in order, each once, byte for byte. What
    waits in the reorder buffer lies strictly beyond the gap and is genuine.
   */
  lemma {:induction false} OrderedLinkSafety(lim: Limits, steps: seq<Step>)
    requires |Run(START, lim, Ordered, steps).log.numbered| + 1 < U32_SIZE
    ensures var w := Run(START, lim, Ordered, steps);
            && |w.log.released| == w.rx.expected - 1 <= |w.log.numbered|
            && (forall i :: 0 <= i < |w.log.released| ==> w.log.released[i] == Frame(i + 1, w.log.numbered[i]))
            && (forall n :: n in w.rx.buffered ==> w.rx.expected < n <= |w.log.numbered|
                                                   && w.rx.buffered[n] == Frame(n, w.log.numbered[n - 1]))
  {
    hide Run, Inv;
    StartOk(lim, Ordered);
    RunKeepsInv(START, lim, Ordered, steps);
    SafeWhenInv(Run(START, lim, Ordered, steps), lim);
  }

  lemma {:induction false} AcksWhenInv(w: World, lim: Limits, mode: Mode, n: nat)
    requires Inv(w, lim, mode)
    ensures Ack(n) in w.net ==> Settled(w, mode, n)
    ensures n in w.log.entered && n !in w.tx.sent ==>
              Settled(w, mode, n) || (n in w.log.spent && w.log.charges[n] == lim.maxRetries)
  {
    hide SenderOk, NetOk, BufferOk, ReleasedOk;
  }

  /**
    A frame leaves the sender's history only once the peer has it (released, or accepted on an
    unordered stream) or after the timeout scan has charged it exactly the maximum number of retries; and
    no ACK on the link claims more than the peer has.
   */
  lemma {:induction false} AckSoundness(lim: Limits, mode: Mode, steps: seq<Step>, n: nat)
    requires |Run(START, lim, mode, steps).log.numbered| + 1 < U32_SIZE
    ensures var w := Run(START, lim, mode, steps);
            && (Ack(n) in w.net ==> Settled(w, mode, n))
            && (n in w.log.entered && n !in w.tx.sent ==>
                  Settled(w, mode, n) || (n in w.log.spent && w.log.charges[n] == lim.maxRetries))
  {
    hide Run, Inv, Settled;
    StartOk(lim, mode);
    RunKeepsInv(START, lim, mode, steps);
    AcksWhenInv(Run(START, lim, mode, steps), lim, mode, n);
  }

  /**
    Replay discipline. The order queue and the history agree, stay within the pending limit and below
    the next number; a number has at most one replay copy, and a live one is marked; timeouts queue no
    more copies of a number than they charge retries, and charge no more than the maximum.
   */
  lemma {:induction false} ReplayDiscipline(lim: Limits, mode: Mode, steps: seq<Step>)
    requires |Run(START, lim, mode, steps).log.numbered| + 1 < U32_SIZE
    ensures var w := Run(START, lim, mode, steps);
            && HistoryOk(w.tx, lim) && ReplayOk(w.tx)
            && |w.tx.sent| <= lim.maxPending
            && (forall n :: w.log.copies[n] <= w.log.charges[n] <= lim.maxRetries)
  {
    hide Run, Inv, HistoryOk, ReplayOk;
    StartOk(lim, mode);
    RunKeepsInv(START, lim, mode, steps);
    DisciplineWhenInv(Run(START, lim, mode, steps), lim, mode);
  }

  lemma {:induction false} DisciplineWhenInv(w: World, lim: Limits, mode: Mode)
    requires Inv(w, lim, mode)
    ensures HistoryOk(w.tx, lim) && ReplayOk(w.tx) && |w.tx.sent| <= lim.maxPending
    ensures forall n :: w.log.copies[n] <= w.log.charges[n] <= lim.maxRetries
  {
    hide NetOk, BufferOk, ReleasedOk, AcksOk, ForgottenOk;
    HistorySize(w.tx, lim);
  }

  /** Released frames are never taken back or replaced: a longer run only appends to them. */
  lemma {:induction false} ReleasedOnlyGrows(w: World, lim: Limits, mode: Mode, steps: seq<Step>)
    ensures w.log.released <= Run(w, lim, mode, steps).log.released
    decreases |steps|
  {
    if steps != [] {
      ReleasedOnlyGrows(Next(w, lim, mode, steps[0]), lim, mode, steps[1..]);
    }
  }

  // -------------------------------------------------------------------------
  // Why runs stop at the wrap
  // -------------------------------------------------------------------------

  /**
    At the wrap a cumulative ACK of the last number also forgets frame 1 of the next round, which the
    peer has not seen.
   */
  lemma WrapForgetsUnseenFrame(body: Bytes)
    ensures var last := U32_SIZE - 1;
            var record := (n: nat) => Sent(Frame(n, body), 0, 0, false, false);
            var s := TxState(AfterSeq(AfterSeq(last)), [last, 1], map[last := record(last), 1 := record(1)], []);
            && AfterSeq(last) == 1
            && 1 !in Acked(s, Ordered, last).sent
  {
    var last := U32_SIZE - 1;
    assert [last, 1][1..] == [1];
    assert AckedPrefix([last, 1], last) == 1 + AckedPrefix([1], last);
    assert AckedPrefix([1], last) == 1 + AckedPrefix([], last);
    assert 1 == [last, 1][..2][1];
  }

  /**
    The release path skips 0 only when the last number came out of the reorder buffer: a receiver that
    takes it straight off the link goes on to expect 0, which no sender ever uses.
   */
  lemma WrapLeavesZeroExpected(r: RxState, lim: Limits, f: Frame, roomOk: bool, evicted: set<nat>)
    requires f.number == r.expected == U32_SIZE - 1
    ensures 0 !in r.buffered ==> Receive(r, lim, f, roomOk, evicted).0.expected == 0
    ensures forall n :: AfterSeq(n) != 0
  {
  }
}
