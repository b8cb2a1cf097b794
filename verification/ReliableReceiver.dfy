/**
  Receiving half of one ordered (side, data type) stream: the expected number, the reorder buffer,
  and the reply each sequenced frame provokes.
 */
module ReliableReceiver {
  import opened ReliableTypes

  datatype RxState = RxState(expected: nat, buffered: map<nat, Frame>)

  const FRESH_RX: RxState := RxState(1, map[])

  /** What one ordered frame leads to: an ACK for old data, a partial ACK with a request, nothing, or a release. */
  datatype Verdict =
    | Stale(ack: nat)
    | Held(partialAck: nat, request: nat)
    | Refused
    | Released(frames: seq<Frame>, ack: nat)

  /** Consecutive buffered frames from `next` on, the buffer without them, and the first number missing. */
  datatype Drained = Drained(frames: seq<Frame>, rest: map<nat, Frame>, next: nat, last: nat)

  function Drain(buffered: map<nat, Frame>, next: nat, last: nat): Drained
    decreases |buffered|
  {
    if next in buffered then
      var rest := buffered - {next};
      assert |rest.Keys| == |buffered.Keys - {next}|;
      var d := Drain(rest, AfterSeq(next), next);
      d.(frames := [buffered[next]] + d.frames)
    else
      Drained([], buffered, next, last)
  }

  lemma {:induction false} FindLeast(ns: set<nat>) returns (k: nat)
    requires ns != {}
    ensures k in ns && forall j :: j in ns ==> k <= j
  {
    var x :| x in ns;
    k := x;
    if ns != {x} {
      var rest := ns - {x};
      var y := FindLeast(rest);
      k := if x <= y then x else y;
      forall j | j in ns ensures k <= j {
        assert j == x || j in rest;
      }
    }
  }

  function Least(ns: set<nat>): (k: nat)
    requires ns != {}
    ensures k in ns && forall j :: j in ns ==> k <= j
  {
    assert exists k :: k in ns && forall j :: j in ns ==> k <= j by {
      var k := FindLeast(ns);
    }
    var k :| k in ns && forall j :: j in ns ==> k <= j;
    k
  }

  /**
    Stores an early frame. `evicted` are the buffered numbers of this stream that the shared budget
    reclaimed while making room, `roomOk` whether it found room at all.
   */
  function Buffered(r: RxState, lim: Limits, f: Frame, roomOk: bool, evicted: set<nat>): RxState
  {
    if f.number in r.buffered then r
    else
      var kept := r.buffered - evicted;
      if !roomOk then r.(buffered := kept)
      else
        var trimmed := if |kept| >= lim.maxPending && kept.Keys != {} then kept - {Least(kept.Keys)} else kept;
        r.(buffered := trimmed[f.number := f])
  }

  function Receive(r: RxState, lim: Limits, f: Frame, roomOk: bool, evicted: set<nat>): (RxState, Verdict)
  {
    if f.number < r.expected then (r, Stale(r.expected - 1))
    else if f.number > r.expected then
      (Buffered(r, lim, f, roomOk, evicted),
       if roomOk || f.number in r.buffered then Held(f.number, r.expected) else Refused)
    else
      var d := Drain(r.buffered, (f.number + 1) % U32_SIZE, f.number);
      (RxState(d.next, d.rest), Released([f] + d.frames, d.last))
  }

  lemma BufferedAddsOnlyTheFrame(r: RxState, lim: Limits, f: Frame, roomOk: bool, evicted: set<nat>)
    ensures var t := Buffered(r, lim, f, roomOk, evicted);
            && t.expected == r.expected
            && (forall n :: n in t.buffered && n in r.buffered ==> t.buffered[n] == r.buffered[n])
            && (forall n :: n in t.buffered && n !in r.buffered ==> n == f.number && t.buffered[n] == f)
  {
  }

  /** The buffer gives up its lowest number and no other. */
  lemma {:induction false} WithoutLeast(kept: map<nat, Frame>, m: nat)
    requires kept.Keys != {}
    ensures var rest := kept - {Least(kept.Keys)};
            && (m in rest <==> m in kept && exists k :: k in kept.Keys && k < m)
            && (m in rest ==> rest[m] == kept[m])
  {
    var least := Least(kept.Keys);
    assert least in kept.Keys && (m in kept && m != least ==> least < m);
    assert m == least ==> forall k :: k in kept.Keys ==> m <= k;
  }

  /**
    What buffering does to one number: the frame itself is stored if there is room, and what waited stays unless
    the budget reclaimed it or it was the lowest number of a full buffer.
   */
  lemma {:induction false} BufferedAt(r: RxState, lim: Limits, f: Frame, roomOk: bool, evicted: set<nat>, m: nat)
    ensures var t := Buffered(r, lim, f, roomOk, evicted);
            var kept := r.buffered.Keys - evicted;
            && t.expected == r.expected
            && (f.number in r.buffered ==> t == r)
            && (f.number !in r.buffered && roomOk ==> f.number in t.buffered && t.buffered[f.number] == f)
            && (f.number !in r.buffered && (m != f.number || !roomOk) ==>
                  (m in t.buffered <==>
                   m in kept && (roomOk && |kept| >= lim.maxPending ==> exists k :: k in kept && k < m)))
            && (m in t.buffered && m in r.buffered ==> t.buffered[m] == r.buffered[m])
  {
    hide Least;
    var kept := r.buffered - evicted;
    assert kept.Keys == r.buffered.Keys - evicted;
    assert |kept| == |kept.Keys|;
    if kept.Keys != {} {
      WithoutLeast(kept, m);
    }
  }

  ghost predicate BufferedBelow(buffered: map<nat, Frame>, bound: nat)
  {
    forall n :: n in buffered ==> n < bound
  }

  /** Where a drain ends: right after the last frame it took, at a number the buffer lacks. */
  lemma {:induction false} DrainEnd(buffered: map<nat, Frame>, next: nat, last: nat, bound: nat)
    requires BufferedBelow(buffered, bound)
    requires 1 <= next <= bound < U32_SIZE && next == last + 1
    ensures var d := Drain(buffered, next, last);
            && next <= d.next <= bound && d.last + 1 == d.next
            && d.next !in buffered
            && |d.frames| == d.next - next
    decreases |buffered|
  {
    if next in buffered {
      var rest := buffered - {next};
      assert |rest.Keys| == |buffered.Keys - {next}|;
      DrainEnd(rest, next + 1, next, bound);
    }
  }

  lemma {:induction false} DrainStep(buffered: map<nat, Frame>, next: nat, last: nat)
    requires next in buffered ==> next + 1 < U32_SIZE
    ensures next !in buffered ==> Drain(buffered, next, last) == Drained([], buffered, next, last)
    ensures next in buffered ==>
              var d := Drain(buffered - {next}, next + 1, next);
              Drain(buffered, next, last) == d.(frames := [buffered[next]] + d.frames)
  {
  }

  /** What a drain does to one number: it is handed out, in its place, exactly when it lies in the gap-free run. */
  lemma {:induction false} DrainAt(buffered: map<nat, Frame>, next: nat, last: nat, bound: nat, n: nat)
    requires BufferedBelow(buffered, bound)
    requires 1 <= next <= bound < U32_SIZE && next == last + 1
    ensures var d := Drain(buffered, next, last);
            && next <= d.next && |d.frames| == d.next - next
            && (next <= n < d.next ==> n in buffered && d.frames[n - next] == buffered[n])
            && (n in d.rest <==> n in buffered && !(next <= n < d.next))
            && (n in d.rest ==> d.rest[n] == buffered[n])
    decreases |buffered|
  {
    hide Drain;
    DrainEnd(buffered, next, last, bound);
    DrainStep(buffered, next, last);
    if next in buffered {
      var rest := buffered - {next};
      assert |rest.Keys| == |buffered.Keys - {next}|;
      DrainAt(rest, next + 1, next, bound, n);
    }
  }

  /** Reorder buffer of one stream, updated in place. */
  class StreamReceiver {
    const lim: Limits
    var expected: nat
    var buffered: map<nat, Frame>

    ghost function State(): RxState
      reads this
    {
      RxState(expected, buffered)
    }

    constructor (lim: Limits)
      ensures State() == FRESH_RX && this.lim == lim
    {
      this.lim := lim;
      expected, buffered := 1, map[];
    }

    method BufferEarly(f: Frame, roomOk: bool, evicted: set<nat>)
      modifies this
      ensures State() == Buffered(old(State()), lim, f, roomOk, evicted)
    {
      if f.number in buffered {
        return;
      }
      buffered := buffered - evicted;
      if !roomOk {
        return;
      }
      if |buffered| >= lim.maxPending && buffered.Keys != {} {
        buffered := buffered - {Least(buffered.Keys)};
      }
      buffered := buffered[f.number := f];
    }

    method ReceiveOrdered(f: Frame, roomOk: bool, evicted: set<nat>) returns (verdict: Verdict)
      modifies this
      ensures (State(), verdict) == Receive(old(State()), lim, f, roomOk, evicted)
    {
      if f.number < expected {
        return Stale(expected - 1);
      }
      if f.number > expected {
        var known := f.number in buffered;
        BufferEarly(f, roomOk, evicted);
        return if roomOk || known then Held(f.number, expected) else Refused;
      }
      var release: seq<Frame> := [f];
      var last: nat := f.number;
      var next: nat := (f.number + 1) % U32_SIZE;
      ghost var d := Drain(buffered, next, last);
      while next in buffered
        invariant expected == old(expected)
        invariant Drain(buffered, next, last).rest == d.rest
        invariant Drain(buffered, next, last).next == d.next
        invariant Drain(buffered, next, last).last == d.last
        invariant release + Drain(buffered, next, last).frames == [f] + d.frames
        decreases |buffered|
      {
        ghost var before := buffered;
        release := release + [buffered[next]];
        buffered := buffered - {next};
        assert |buffered.Keys| == |before.Keys - {next}|;
        last := next;
        next := AfterSeq(next);
      }
      assert release + [] == release;
      expected := next;
      verdict := Released(release, last);
    }
  }
}
