/**
  Double-ended queue with a byte budget and a hard element cap. Items are pushed first-in-first-out or
  by descending priority; either way the queue makes room by discarding what it already holds.
 */
module BoundedDeques {
  const USIZE_MAX: nat := 0xFFFF_FFFF_FFFF_FFFF

  /** A queued item: identity, accounted bytes, priority, and the relay sides it belongs to. */
  datatype Item = Item(id: nat, cost: nat, priority: nat, src: int, dst: int)

  datatype PushOutcome = Pushed | TooLarge | Saturated

  function Bytes(q: seq<Item>): nat
  {
    if q == [] then 0 else Bytes(q[..|q| - 1]) + q[|q| - 1].cost
  }

  /** Highest priority first. */
  ghost predicate Descending(q: seq<Item>)
  {
    forall i, j :: 0 <= i < j < |q| ==> q[i].priority >= q[j].priority
  }

  // -------------------------------------------------------------------------
  // Prioritized push
  // -------------------------------------------------------------------------

  /** How many leading items stay, and whether a strictly higher priority stopped the trimming. */
  datatype Trimmed = Trimmed(count: nat, blocked: bool)

  /**
    Discards items `count - 1`, `count - 2`, ... until `cost` more bytes fit or a strictly higher priority is
    in the way.
   */
  function TrimTail(q: seq<Item>, count: nat, v: Item, maxBytes: nat): (t: Trimmed)
    requires count <= |q|
    ensures t.count <= count
  {
    if count == 0 || Bytes(q[..count]) + v.cost <= maxBytes then Trimmed(count, false)
    else if q[count - 1].priority > v.priority then Trimmed(count, true)
    else TrimTail(q, count - 1, v, maxBytes)
  }

  /** Index of the first item of strictly lower priority, or the end. */
  function InsertAt(q: seq<Item>, priority: nat): (i: nat)
    ensures i <= |q|
    ensures forall k :: 0 <= k < i ==> q[k].priority >= priority
    ensures i < |q| ==> q[i].priority < priority
  {
    if q == [] || q[0].priority < priority then 0 else 1 + InsertAt(q[1..], priority)
  }

  function Inserted(q: seq<Item>, v: Item): seq<Item>
  {
    var i := InsertAt(q, v.priority);
    q[..i] + [v] + q[i..]
  }

  /** How many old items survive a prioritized push, and how it ends. */
  function PushPlan(q: seq<Item>, v: Item, maxBytes: nat, maxElems: nat): (p: (nat, PushOutcome))
    requires maxElems >= 1
    ensures p.0 <= |q|
  {
    if v.cost > maxBytes then (|q|, TooLarge)
    else
      var t := TrimTail(q, |q|, v, maxBytes);
      if t.blocked then (t.count, Saturated)
      else if t.count < maxElems then (t.count, Pushed)
      else if q[t.count - 1].priority > v.priority then (t.count, Saturated)
      else (t.count - 1, Pushed)
  }

  function PushPrioritized(q: seq<Item>, v: Item, maxBytes: nat, maxElems: nat): (seq<Item>, PushOutcome)
    requires maxElems >= 1
  {
    var (k, outcome) := PushPlan(q, v, maxBytes, maxElems);
    (if outcome.Pushed? then Inserted(q[..k], v) else q[..k], outcome)
  }

  // -------------------------------------------------------------------------
  // First-in-first-out push
  // -------------------------------------------------------------------------

  function TrimHead(q: seq<Item>, cost: nat, maxBytes: nat): seq<Item>
    decreases |q|
  {
    if q == [] || Bytes(q) + cost <= maxBytes then q else TrimHead(q[1..], cost, maxBytes)
  }

  function PushFifo(q: seq<Item>, v: Item, maxBytes: nat, maxElems: nat): (seq<Item>, PushOutcome)
    requires maxElems >= 1
  {
    if v.cost > maxBytes then (q, TooLarge)
    else
      var t := TrimHead(q, v.cost, maxBytes);
      ((if |t| >= maxElems then t[1..] else t) + [v], Pushed)
  }

  // -------------------------------------------------------------------------
  // Byte sums
  // -------------------------------------------------------------------------

  lemma {:induction false} BytesConcat(a: seq<Item>, b: seq<Item>)
    ensures Bytes(a + b) == Bytes(a) + Bytes(b)
  {
    if b == [] {
      assert a + b == a;
    } else {
      BytesConcat(a, b[..|b| - 1]);
      assert (a + b)[..|a + b| - 1] == a + b[..|b| - 1];
    }
  }

  lemma {:induction false} BytesPrefix(q: seq<Item>, k: nat)
    requires k <= |q|
    ensures Bytes(q[..k]) <= Bytes(q) && Bytes(q) == Bytes(q[..k]) + Bytes(q[k..])
  {
    hide Bytes;
    BytesConcat(q[..k], q[k..]);
    assert q[..k] + q[k..] == q;
  }

  lemma BytesWithout(q: seq<Item>, i: nat)
    requires i < |q|
    ensures Bytes(q[..i] + q[i + 1..]) == Bytes(q) - q[i].cost
  {
    BytesPrefix(q, i);
    BytesPrefix(q[i..], 1);
    assert q[i..][..1] == [q[i]] && q[i..][1..] == q[i + 1..];
    assert [q[i]][..0] == [];
    assert Bytes([q[i]]) == q[i].cost;
    BytesConcat(q[..i], q[i + 1..]);
  }

  lemma BytesInserted(q: seq<Item>, v: Item)
    ensures Bytes(Inserted(q, v)) == Bytes(q) + v.cost
  {
    var i := InsertAt(q, v.priority);
    BytesConcat(q[..i] + [v], q[i..]);
    BytesConcat(q[..i], [v]);
    BytesPrefix(q, i);
    assert [v][..0] == [];
    assert Bytes([v]) == v.cost;
  }

  // -------------------------------------------------------------------------
  // What a prioritized push means
  // -------------------------------------------------------------------------

  /** Trimming keeps the longest prefix that leaves room, never giving up an item of strictly higher priority. */
  lemma {:induction false} TrimTailMeaning(q: seq<Item>, count: nat, v: Item, maxBytes: nat)
    requires count <= |q|
    ensures var t := TrimTail(q, count, v, maxBytes);
            && (forall i :: t.count <= i < count ==> q[i].priority <= v.priority)
            && (forall k :: t.count < k <= count ==> Bytes(q[..k]) + v.cost > maxBytes)
            && (if t.blocked
                then t.count > 0 && q[t.count - 1].priority > v.priority && Bytes(q[..t.count]) + v.cost > maxBytes
                else t.count == 0 || Bytes(q[..t.count]) + v.cost <= maxBytes)
  {
    if count > 0 && Bytes(q[..count]) + v.cost > maxBytes && q[count - 1].priority <= v.priority {
      TrimTailMeaning(q, count - 1, v, maxBytes);
    }
  }

  /** How many leading items have a strictly higher priority. */
  function HigherCount(q: seq<Item>, priority: nat): (h: nat)
    ensures h <= |q|
    ensures forall i :: 0 <= i < h ==> q[i].priority > priority
    ensures h < |q| ==> q[h].priority <= priority
  {
    if q == [] || q[0].priority <= priority then 0 else 1 + HigherCount(q[1..], priority)
  }

  /** `k` items of the old queue, and no more, can stay beside the new one. */
  ghost predicate LongestFit(q: seq<Item>, v: Item, maxBytes: nat, maxElems: nat, k: nat)
  {
    && k <= |q| && k < maxElems
    && Bytes(q[..k]) + v.cost <= maxBytes
    && (forall j :: k < j <= |q| && j < maxElems ==> Bytes(q[..j]) + v.cost > maxBytes)
  }

  /**
    A prioritized push on a sorted queue, without reference to its loop. It succeeds exactly when the
    new item fits beside the strictly higher priorities alone; it then keeps the longest old prefix
    that fits and puts the new item behind every priority at least its own.
   */
  lemma PrioritizedPushMeaning(q: seq<Item>, v: Item, maxBytes: nat, maxElems: nat) returns (k: nat)
    requires 1 <= maxElems && |q| <= maxElems && Descending(q)
    ensures var (r, outcome) := PushPrioritized(q, v, maxBytes, maxElems);
            var h := HigherCount(q, v.priority);
            && h <= k <= |q|
            && (outcome.Pushed? <==> Bytes(q[..h]) + v.cost <= maxBytes && h < maxElems)
            && (outcome.TooLarge? <==> v.cost > maxBytes)
            && (outcome.Pushed? ==> LongestFit(q, v, maxBytes, maxElems, k) && r == Inserted(q[..k], v))
            && (!outcome.Pushed? ==> r == q[..k])
  {
    k := PushPlan(q, v, maxBytes, maxElems).0;
    TrimTailMeaning(q, |q|, v, maxBytes);
    var t, h := TrimTail(q, |q|, v, maxBytes), HigherCount(q, v.priority);
    PrefixBytesGrow(q, h, t.count);
    PrefixBytesGrow(q, k, t.count);
    PrefixBytesGrow(q, h, k);
    PrefixBytesGrow(q, 0, h);
  }

  lemma PrefixBytesGrow(q: seq<Item>, h: nat, k: nat)
    requires h <= |q| && k <= |q|
    ensures h <= k ==> Bytes(q[..h]) <= Bytes(q[..k])
  {
    if h <= k {
      BytesPrefix(q[..k], h);
      assert q[..k][..h] == q[..h];
    }
  }

  /** The queue stays sorted, and the new item comes after every older item of its own priority. */
  lemma {:induction false} InsertedStaysSorted(q: seq<Item>, v: Item)
    requires Descending(q)
    ensures Descending(Inserted(q, v))
    ensures var i, r := InsertAt(q, v.priority), Inserted(q, v);
            && r[i] == v
            && (forall j :: i <= j < |q| ==> q[j].priority < v.priority)
  {
    var i := InsertAt(q, v.priority);
    var r := Inserted(q, v);
    forall a, b | 0 <= a < b < |r| ensures r[a].priority >= r[b].priority {
      assert r[a] == if a < i then q[a] else if a == i then v else q[a - 1];
      assert r[b] == if b < i then q[b] else if b == i then v else q[b - 1];
    }
  }

  /** The new item is in the queue, and without it the queue is what it was. */
  lemma {:induction false} InsertedHas(q: seq<Item>, v: Item)
    ensures v in Inserted(q, v)
    ensures var i, r := InsertAt(q, v.priority), Inserted(q, v);
            i < |r| && r[i] == v && r[..i] + r[i + 1..] == q
  {
    var i := InsertAt(q, v.priority);
    hide InsertAt;
    var r := Inserted(q, v);
    assert r[i] == v;
    assert r[..i] == q[..i] && r[i + 1..] == q[i..];
  }

  /** Every priority order is kept by a push, whatever its outcome. */
  lemma {:induction false} PushKeepsSorted(q: seq<Item>, v: Item, maxBytes: nat, maxElems: nat)
    requires 1 <= maxElems && |q| <= maxElems && Descending(q)
    ensures Descending(PushPrioritized(q, v, maxBytes, maxElems).0)
  {
    hide Bytes, PushPrioritized, Inserted, HigherCount, LongestFit;
    var k := PrioritizedPushMeaning(q, v, maxBytes, maxElems);
    InsertedStaysSorted(q[..k], v);
  }

  /** Even a failed push may discard items, but never one of strictly higher priority (sorted or not). */
  lemma OnlyLowerEvicted(q: seq<Item>, v: Item, maxBytes: nat, maxElems: nat) returns (k: nat)
    requires 1 <= maxElems
    ensures var (r, outcome) := PushPrioritized(q, v, maxBytes, maxElems);
            && k <= |q|
            && r == (if outcome.Pushed? then Inserted(q[..k], v) else q[..k])
            && (forall i :: k <= i < |q| ==> q[i].priority <= v.priority)
  {
    k := PushPlan(q, v, maxBytes, maxElems).0;
    TrimTailMeaning(q, |q|, v, maxBytes);
  }

  /**
    A push refused for saturation leaves the queue as it was exactly when the last item already
    outranks the new one; otherwise lower items are lost for nothing.
   */
  lemma RefusedPushKeepsQueue(q: seq<Item>, v: Item, maxBytes: nat, maxElems: nat)
    requires 1 <= maxElems && |q| <= maxElems
    requires PushPrioritized(q, v, maxBytes, maxElems).1.Saturated?
    ensures q != []
    ensures PushPrioritized(q, v, maxBytes, maxElems).0 == q <==> q[|q| - 1].priority > v.priority
  {
    TrimTailMeaning(q, |q|, v, maxBytes);
    assert q[..|q|] == q;
  }

  /** Such a loss happens: the priority-5 item goes although the priority-10 item is then refused. */
  lemma RefusedPushEvicts()
    ensures var q := [Item(1, 32, 20, 0, 0), Item(2, 10, 5, 0, 0)];
            PushPrioritized(q, Item(3, 40, 10, 0, 0), 64, 8) == ([Item(1, 32, 20, 0, 0)], Saturated)
  {
    var a, b := Item(1, 32, 20, 0, 0), Item(2, 10, 5, 0, 0);
    assert [a, b][..1] == [a];
    assert [a][..0] == [];
    assert Bytes([a]) == 32 && Bytes([a, b]) == 42;
    var v := Item(3, 40, 10, 0, 0);
    assert [a, b][..2] == [a, b];
    assert TrimTail([a, b], 2, v, 64) == TrimTail([a, b], 1, v, 64) == Trimmed(1, true);
  }

  // -------------------------------------------------------------------------
  // What a first-in-first-out push means
  // -------------------------------------------------------------------------

  lemma {:induction false} TrimHeadMeaning(q: seq<Item>, cost: nat, maxBytes: nat) returns (k: nat)
    ensures k <= |q| && TrimHead(q, cost, maxBytes) == q[k..]
    ensures k == |q| || Bytes(q[k..]) + cost <= maxBytes
    ensures forall j :: 0 <= j < k ==> Bytes(q[j..]) + cost > maxBytes
    decreases |q|
  {
    k := 0;
    if q != [] && Bytes(q) + cost > maxBytes {
      var n := TrimHeadMeaning(q[1..], cost, maxBytes);
      k := n + 1;
      assert q[1..][n..] == q[k..];
      forall j | 0 <= j < k ensures Bytes(q[j..]) + cost > maxBytes {
        if j == 0 {
          assert q[0..] == q;
        } else {
          assert q[1..][j - 1..] == q[j..];
        }
      }
    }
  }

  /**
    A FIFO push succeeds whenever the item fits alone, and keeps the longest run of newest items that fits
    beside it.
   */
  lemma FifoPushMeaning(q: seq<Item>, v: Item, maxBytes: nat, maxElems: nat) returns (k: nat)
    requires 1 <= maxElems && |q| <= maxElems
    ensures var (r, outcome) := PushFifo(q, v, maxBytes, maxElems);
            && k <= |q|
            && (outcome.Pushed? <==> v.cost <= maxBytes)
            && (outcome.Pushed? ==>
                  && r == q[k..] + [v]
                  && |r| <= maxElems && Bytes(r) <= maxBytes
                  && (forall j :: 0 <= j < k ==> |q[j..]| + 1 > maxElems || Bytes(q[j..]) + v.cost > maxBytes))
            && (!outcome.Pushed? ==> outcome.TooLarge? && r == q)
  {
    var t := TrimHead(q, v.cost, maxBytes);
    k := TrimHeadMeaning(q, v.cost, maxBytes);
    assert [v][..0] == [];
    assert Bytes([v]) == v.cost;
    if v.cost <= maxBytes {
      if |t| >= maxElems {
        assert k == 0;
        assert t[1..] == q[1..];
        BytesPrefix(q, 1);
        k := 1;
        assert q[0..] == q;
      }
      BytesConcat(q[k..], [v]);
    }
  }

  // -------------------------------------------------------------------------
  // The queue itself
  // -------------------------------------------------------------------------

  function Min(a: nat, b: nat): nat { if a <= b then a else b }

  function Max(a: nat, b: nat): nat { if a >= b then a else b }

  /** Target capacity when a full buffer grows: ceil(cap * num / den), at least one more, at most the element cap. */
  function GrownCapacity(cap: nat, num: nat, den: nat, maxElems: nat): (r: nat)
    requires den >= 1
    ensures cap < maxElems ==> cap < r <= maxElems
  {
    var scaled := Min(Min(cap * num, USIZE_MAX) + (den - 1), USIZE_MAX);
    Min(Max(scaled / den, cap + 1), maxElems)
  }

  /**
    Short of the integer range, the target is the least number with `target * den >= cap * num`, unless the buffer
    would not grow by it or outgrow the element cap: then it is one more than before, or the cap.
   */
  lemma {:induction false} GrownExactly(cap: nat, num: nat, den: nat, maxElems: nat)
    requires den >= 1 && cap * num + (den - 1) <= USIZE_MAX && cap < maxElems
    ensures var r := GrownCapacity(cap, num, den, maxElems);
            && (cap + 1 < r < maxElems ==> r * den >= cap * num > (r - 1) * den)
            && (r == cap + 1 < maxElems ==> r * den >= cap * num)
            && (r == maxElems > cap + 1 ==> cap * num > (maxElems - 1) * den)
  {
    var r, q := GrownCapacity(cap, num, den, maxElems), (cap * num + (den - 1)) / den;
    hide GrownCapacity;
    GrownIs(cap, num, den, maxElems);
    RoundedUp(cap * num, den);
    if q <= r {
      ScaledOrder(q, r, den);
    }
    if r <= q {
      ScaledOrder(r - 1, q - 1, den);
    }
  }

  lemma {:induction false} GrownIs(cap: nat, num: nat, den: nat, maxElems: nat)
    requires den >= 1 && cap * num + (den - 1) <= USIZE_MAX && cap < maxElems
    ensures GrownCapacity(cap, num, den, maxElems) == Min(Max((cap * num + (den - 1)) / den, cap + 1), maxElems)
  {
  }

  lemma {:induction false} RoundedUp(n: nat, d: nat)
    requires d >= 1
    ensures var q := (n + (d - 1)) / d; q * d >= n && (q - 1) * d < n
  {
    var q := (n + (d - 1)) / d;
    assert q * d <= n + (d - 1) < q * d + d;
    assert (q - 1) * d == q * d - d;
  }

  lemma {:induction false} ScaledOrder(a: int, b: int, d: nat)
    requires a <= b
    ensures a * d <= b * d
  {
  }

  predicate Keeps(keep: Item -> bool, x: Item) { keep(x) }

  /** The retained items, in order. */
  function Retained(q: seq<Item>, keep: Item -> bool): (r: seq<Item>)
  {
    if q == [] then [] else (if Keeps(keep, q[0]) then [q[0]] else []) + Retained(q[1..], keep)
  }

  lemma {:induction false} RetainedBytes(q: seq<Item>, keep: Item -> bool)
    ensures Bytes(Retained(q, keep)) <= Bytes(q) && |Retained(q, keep)| <= |q|
    ensures forall x :: x in Retained(q, keep) <==> x in q && Keeps(keep, x)
  {
    if q != [] {
      RetainedBytes(q[1..], keep);
      assert q == [q[0]] + q[1..];
      BytesConcat([q[0]], q[1..]);
      BytesConcat(if Keeps(keep, q[0]) then [q[0]] else [], Retained(q[1..], keep));
    }
  }

  lemma RetainedFrom(q: seq<Item>, keep: Item -> bool, i: nat)
    requires i < |q|
    ensures q[..i] + Retained(q[i..], keep)
            == (if Keeps(keep, q[i]) then q[..i + 1] else q[..i]) + Retained(q[i + 1..], keep)
  {
    assert q[i..][1..] == q[i + 1..];
    assert q[..i + 1] == q[..i] + [q[i]];
  }

  lemma RemovedSlices(q: seq<Item>, i: nat)
    requires i < |q|
    ensures var r := q[..i] + q[i + 1..]; r[..i] == q[..i] && r[i..] == q[i + 1..]
  {
  }

  class BoundedDeque {
    var q: seq<Item>
    var curBytes: nat
    var capacity: nat
    const maxBytes: nat
    const maxElems: nat
    const growNum: nat
    const growDen: nat

    /** The running byte count is exact, both limits hold, and the buffer holds its items. */
    ghost predicate Valid()
      reads this
    {
      && curBytes == Bytes(q) <= maxBytes
      && |q| <= maxElems && |q| <= capacity
      && 1 <= maxElems && 1 <= growDen < growNum
    }

    /** `itemSize` is the in-memory size of one item; the element cap follows from it. */
    constructor (maxBytes: nat, startingBytes: nat, itemSize: nat, growNum: nat, growDen: nat)
      requires startingBytes <= maxBytes && 0 < maxBytes && 1 <= growDen < growNum
      ensures Valid() && q == [] && this.maxBytes == maxBytes
      ensures maxElems == Max(maxBytes / Max(itemSize, 1), 1)
    {
      var minCost := Max(itemSize, 1);
      this.maxBytes := maxBytes;
      this.maxElems := Max(maxBytes / minCost, 1);
      this.growNum, this.growDen := growNum, growDen;
      q, curBytes := [], 0;
      var requested := Max(1, Min(startingBytes / minCost, Max(maxBytes / minCost, 1)));
      var granted: nat :| granted >= requested;
      capacity := granted;
    }

    method PopFront() returns (popped: bool, v: Item)
      requires Valid()
      modifies this
      ensures Valid() && popped == (old(q) != [])
      ensures popped ==> v == old(q)[0] && q == old(q)[1..]
      ensures !popped ==> q == old(q)
      ensures curBytes <= old(curBytes) && capacity == old(capacity)
    {
      if q == [] {
        return false, Item(0, 0, 0, 0, 0);
      }
      v := q[0];
      BytesPrefix(q, 1);
      BytesWithout(q, 0);
      assert q[..0] + q[1..] == q[1..];
      q := q[1..];
      curBytes := curBytes - v.cost;
      popped := true;
    }

    method PopBack() returns (popped: bool, v: Item)
      requires Valid()
      modifies this
      ensures Valid() && popped == (old(q) != [])
      ensures popped ==> v == old(q)[|old(q)| - 1] && q == old(q)[..|old(q)| - 1]
      ensures !popped ==> q == old(q)
      ensures curBytes <= old(curBytes) && capacity == old(capacity)
    {
      if q == [] {
        return false, Item(0, 0, 0, 0, 0);
      }
      v := q[|q| - 1];
      q := q[..|q| - 1];
      curBytes := curBytes - v.cost;
      popped := true;
    }

    method RemovePos(i: nat) returns (removed: bool)
      requires Valid()
      modifies this
      ensures Valid() && removed == (i < |old(q)|)
      ensures q == if removed then old(q)[..i] + old(q)[i + 1..] else old(q)
      ensures capacity == old(capacity)
    {
      if i >= |q| {
        return false;
      }
      BytesWithout(q, i);
      curBytes := curBytes - q[i].cost;
      q := q[..i] + q[i + 1..];
      removed := true;
    }

    /** Removes the first occurrence of `needle`, if there is one. */
    method RemoveValue(needle: Item)
      requires Valid()
      modifies this
      ensures Valid()
      ensures needle !in old(q) ==> q == old(q)
      ensures needle in old(q) ==>
                exists i :: 0 <= i < |old(q)| && old(q)[i] == needle && needle !in old(q)[..i]
                            && q == old(q)[..i] + old(q)[i + 1..]
    {
      var i := 0;
      while i < |q| && q[i] != needle
        invariant i <= |q| && needle !in q[..i]
        invariant q == old(q) && Valid()
      {
        i := i + 1;
      }
      if i < |q| {
        var removed := RemovePos(i);
      }
    }

    method Retain(keep: Item -> bool)
      requires Valid()
      modifies this
      ensures Valid() && q == Retained(old(q), keep)
      ensures capacity == old(capacity)
    {
      var i := 0;
      ghost var goal := Retained(q, keep);
      assert q[0..] == q;
      while i < |q|
        invariant Valid() && i <= |q| && capacity == old(capacity)
        invariant goal == q[..i] + Retained(q[i..], keep)
        decreases |q| - i
      {
        RetainedFrom(q, keep, i);
        if Keeps(keep, q[i]) {
          i := i + 1;
        } else {
          RemovedSlices(q, i);
          var removed := RemovePos(i);
        }
      }
    }

    method Clear()
      requires Valid()
      modifies this
      ensures Valid() && q == []
    {
      q, curBytes := [], 0;
    }

    /** Below the element cap this only ever enlarges the buffer; it gives up an item only when the cap is reached. */
    method EnsureRoomForOne()
      requires Valid()
      modifies this
      ensures Valid() && |q| < capacity
      ensures q == if |old(q)| < old(capacity) || |old(q)| < maxElems then old(q) else old(q)[1..]
      ensures curBytes <= old(curBytes)
    {
      if |q| < capacity {
        return;
      }
      if |q| >= maxElems {
        var popped, _ := PopFront();
        return;
      }
      // A full buffer below the element cap has a capacity below it too: no further eviction is reachable.
      assert capacity < maxElems;
      var target := GrownCapacity(capacity, growNum, growDen, maxElems);
      var granted: nat :| granted >= target;
      capacity := granted;
    }

    method PushBack(v: Item) returns (outcome: PushOutcome)
      requires Valid()
      modifies this
      ensures Valid() && (q, outcome) == PushFifo(old(q), v, maxBytes, maxElems)
    {
      if v.cost > maxBytes {
        return TooLarge;
      }
      while q != [] && curBytes + v.cost > maxBytes
        invariant Valid() && TrimHead(q, v.cost, maxBytes) == TrimHead(old(q), v.cost, maxBytes)
        decreases |q|
      {
        var popped, _ := PopFront();
      }
      if |q| >= maxElems {
        var popped, _ := PopFront();
      }
      EnsureRoomForOne();
      BytesConcat(q, [v]);
      assert Bytes([v]) == v.cost by { assert [v][..0] == []; }
      q := q + [v];
      curBytes := curBytes + v.cost;
      outcome := Pushed;
    }

    /** Evicts from the tail until the new item fits, giving up when a strictly higher priority is in the way. */
    method MakePriorityRoom(v: Item) returns (blocked: bool)
      requires Valid() && v.cost <= maxBytes
      modifies this
      ensures Valid()
      ensures var (k, outcome) := PushPlan(old(q), v, maxBytes, maxElems);
              q == old(q)[..k] && blocked == outcome.Saturated?
      ensures !blocked ==> |q| < maxElems && curBytes + v.cost <= maxBytes
    {
      ghost var q0 := q;
      while q != [] && curBytes + v.cost > maxBytes
        invariant Valid() && |q| <= |q0| && q == q0[..|q|]
        invariant TrimTail(q0, |q|, v, maxBytes) == TrimTail(q0, |q0|, v, maxBytes)
        decreases |q|
      {
        if q[|q| - 1].priority > v.priority {
          return true;
        }
        var popped, _ := PopBack();
      }
      if |q| >= maxElems {
        if q[|q| - 1].priority > v.priority {
          return true;
        }
        var popped, _ := PopBack();
      }
      blocked := false;
    }

    /** Puts an item that fits in front of the first one of strictly lower priority. */
    method InsertByPriority(v: Item)
      requires Valid() && |q| < maxElems && curBytes + v.cost <= maxBytes && |q| < capacity
      modifies this
      ensures Valid() && q == Inserted(old(q), v)
    {
      var i := 0;
      assert q[0..] == q;
      while i < |q| && q[i].priority >= v.priority
        invariant i <= |q| && InsertAt(q, v.priority) == i + InsertAt(q[i..], v.priority)
        invariant q == old(q) && curBytes == old(curBytes) && capacity == old(capacity)
      {
        assert q[i..][1..] == q[i + 1..];
        i := i + 1;
      }
      BytesInserted(q, v);
      q := q[..i] + [v] + q[i..];
      curBytes := curBytes + v.cost;
    }

    method PushBackPrioritized(v: Item) returns (outcome: PushOutcome)
      requires Valid()
      modifies this
      ensures Valid() && (q, outcome) == PushPrioritized(old(q), v, maxBytes, maxElems)
    {
      if v.cost > maxBytes {
        assert q[..|q|] == q;
        return TooLarge;
      }
      var blocked := MakePriorityRoom(v);
      if blocked {
        return Saturated;
      }
      EnsureRoomForOne();
      InsertByPriority(v);
      outcome := Pushed;
    }
  }
}
