/** Choosing among the sides a packet may go to: all, one by weight, or one by priority. */
module RouteSelection {
  import opened Wrappers
  import opened LittleEndian
  import opened CanonicalLists

  // -------------------------------------------------------------------------
  // Weighted choice
  // -------------------------------------------------------------------------

  function TotalWeight(sides: seq<nat>, w: nat -> nat): nat
  {
    if |sides| == 0 then 0 else w(sides[0]) + TotalWeight(sides[1..], w)
  }

  /** The side in whose share of the total `remaining` lies. */
  function Walk(sides: seq<nat>, w: nat -> nat, remaining: nat): Option<nat>
    decreases |sides|
  {
    if |sides| == 0 then None
    else if remaining < w(sides[0]) then Some(sides[0])
    else Walk(sides[1..], w, remaining - w(sides[0]))
  }

  /** The choice at a cursor; the cursor is a 64-bit counter that wraps. */
  function Chosen(sides: seq<nat>, w: nat -> nat, cursor: nat): Option<nat>
  {
    var total := TotalWeight(sides, w);
    if total == 0 then None else Walk(sides, w, cursor % TWO_64 % total)
  }

  /** How often `side` is chosen in `n` selections from `cursor` on. */
  function Times(sides: seq<nat>, w: nat -> nat, cursor: nat, n: nat, side: nat): nat
    decreases n
  {
    if n == 0 then 0
    else (if Chosen(sides, w, cursor) == Some(side) then 1 else 0) + Times(sides, w, cursor + 1, n - 1, side)
  }

  /** The walk ends at one of the sides exactly below the total, so its fall-through is never reached. */
  lemma {:induction false} WalkHits(sides: seq<nat>, w: nat -> nat, remaining: nat)
    ensures Walk(sides, w, remaining).Some? <==> remaining < TotalWeight(sides, w)
    ensures Walk(sides, w, remaining).Some? ==> Walk(sides, w, remaining).value in sides
    decreases |sides|
  {
    if |sides| > 0 && remaining >= w(sides[0]) {
      WalkHits(sides[1..], w, remaining - w(sides[0]));
    }
  }

  /** With any weight at all, every selection yields exactly one of the sides. */
  lemma {:induction false} AlwaysOne(sides: seq<nat>, w: nat -> nat, cursor: nat)
    ensures Chosen(sides, w, cursor).Some? <==> TotalWeight(sides, w) > 0
    ensures Chosen(sides, w, cursor).Some? ==> Chosen(sides, w, cursor).value in sides
  {
    if TotalWeight(sides, w) > 0 {
      WalkHits(sides, w, cursor % TWO_64 % TotalWeight(sides, w));
    }
  }

  /** How often the walk from `from`, ..., `from + n - 1` ends at `side`. */
  function Share(sides: seq<nat>, w: nat -> nat, from: nat, n: nat, side: nat): nat
    decreases n
  {
    if n == 0 then 0
    else (if Walk(sides, w, from) == Some(side) then 1 else 0) + Share(sides, w, from + 1, n - 1, side)
  }

  lemma {:induction false} ShareSplit(sides: seq<nat>, w: nat -> nat, from: nat, n: nat, m: nat, side: nat)
    ensures Share(sides, w, from, n + m, side) == Share(sides, w, from, n, side) + Share(sides, w, from + n, m, side)
    decreases n
  {
    hide Walk;
    if n > 0 {
      ShareSplit(sides, w, from + 1, n - 1, m, side);
    }
  }

  lemma {:induction false} ShareOfFirst(sides: seq<nat>, w: nat -> nat, from: nat, n: nat, side: nat)
    requires |sides| > 0 && from + n <= w(sides[0])
    ensures Share(sides, w, from, n, side) == if side == sides[0] then n else 0
    decreases n
  {
    if n > 0 {
      ShareOfFirst(sides, w, from + 1, n - 1, side);
    }
  }

  lemma {:induction false} ShareOfRest(sides: seq<nat>, w: nat -> nat, from: nat, n: nat, side: nat)
    requires |sides| > 0
    ensures Share(sides, w, w(sides[0]) + from, n, side) == Share(sides[1..], w, from, n, side)
    decreases n
  {
    if n > 0 {
      ShareOfRest(sides, w, from + 1, n - 1, side);
    }
  }

  lemma {:induction false} NoShare(sides: seq<nat>, w: nat -> nat, from: nat, n: nat, side: nat)
    requires side !in sides
    ensures Share(sides, w, from, n, side) == 0
    decreases n
  {
    if n > 0 {
      WalkHits(sides, w, from);
      NoShare(sides, w, from + 1, n - 1, side);
    }
  }

  /** Over one full turn every side is met exactly its weight times. */
  lemma {:induction false} FullTurn(sides: seq<nat>, w: nat -> nat, side: nat)
    requires Ascending(NatLess, sides) && side in sides
    ensures Share(sides, w, 0, TotalWeight(sides, w), side) == w(side)
    decreases |sides|
  {
    hide Share, Walk;
    var first, rest := w(sides[0]), TotalWeight(sides[1..], w);
    ShareSplit(sides, w, 0, first, rest, side);
    ShareOfFirst(sides, w, 0, first, side);
    ShareOfRest(sides, w, 0, rest, side);
    NatOrder();
    TailElement(NatLess, sides, side);
    if side == sides[0] {
      NoShare(sides[1..], w, 0, rest, side);
    } else {
      FullTurn(sides[1..], w, side);
    }
  }

  /** A remainder is the one number below the divisor that differs from the dividend by a multiple of it. */
  lemma {:induction false} RemainderIs(a: nat, m: nat, q: nat, r: nat)
    requires m > 0 && r < m && a == q * m + r
    ensures a % m == r
  {
    var d := a / m - q;
    assert d * m == r - a % m;
    assert d >= 1 ==> d * m >= m;
    assert d <= -1 ==> d * m + m <= 0;
  }

  lemma {:induction false} SameRemainder(a: nat, m: nat)
    requires m > 0
    ensures (a + m) % m == a % m && (a < m ==> a % m == a)
  {
    var q, r := a / m, a % m;
    assert a + m == (q + 1) * m + r;
    RemainderIs(a + m, m, q + 1, r);
    if a < m {
      RemainderIs(a, m, 0, a);
    }
  }

  lemma {:induction false} ChosenBelow(sides: seq<nat>, w: nat -> nat, cursor: nat)
    requires cursor < TotalWeight(sides, w) <= TWO_64
    ensures Chosen(sides, w, cursor) == Walk(sides, w, cursor)
  {
    hide Walk, TotalWeight;
    SameRemainder(cursor, TotalWeight(sides, w));
  }

  lemma {:induction false} TimesIsShare(sides: seq<nat>, w: nat -> nat, from: nat, n: nat, side: nat)
    requires 0 < TotalWeight(sides, w) <= TWO_64 && from + n <= TotalWeight(sides, w)
    ensures Times(sides, w, from, n, side) == Share(sides, w, from, n, side)
    decreases n
  {
    hide Walk, TotalWeight, Chosen;
    if n > 0 {
      ChosenBelow(sides, w, from);
      TimesIsShare(sides, w, from + 1, n - 1, side);
    }
  }

  lemma {:induction false} TimesShift(sides: seq<nat>, w: nat -> nat, cursor: nat, n: nat, side: nat)
    requires Chosen(sides, w, cursor) == Chosen(sides, w, cursor + n)
    ensures Times(sides, w, cursor + 1, n, side) == Times(sides, w, cursor, n, side)
  {
    hide Chosen;
    TimesLast(sides, w, cursor, n + 1, side);
  }

  lemma {:induction false} TimesLast(sides: seq<nat>, w: nat -> nat, cursor: nat, n: nat, side: nat)
    requires n > 0
    ensures Times(sides, w, cursor, n, side)
            == Times(sides, w, cursor, n - 1, side) + if Chosen(sides, w, cursor + n - 1) == Some(side) then 1 else 0
    decreases n
  {
    hide Chosen;
    if n > 1 {
      TimesLast(sides, w, cursor + 1, n - 1, side);
    }
  }

  /** Without a wrap in between, a full turn later the choice is the same. */
  lemma {:induction false} ChosenPeriodic(sides: seq<nat>, w: nat -> nat, cursor: nat)
    requires cursor + TotalWeight(sides, w) < TWO_64 && TotalWeight(sides, w) > 0
    ensures Chosen(sides, w, cursor + TotalWeight(sides, w)) == Chosen(sides, w, cursor)
  {
    hide TotalWeight, Walk;
    var total := TotalWeight(sides, w);
    SameRemainder(cursor, total);
    SameRemainder(cursor, TWO_64);
    SameRemainder(cursor + total, TWO_64);
  }

  /** If the total divides 2 to the 64, it is the same across the wrap too. */
  lemma {:induction false} ChosenPeriodicAcross(sides: seq<nat>, w: nat -> nat, cursor: nat)
    requires TotalWeight(sides, w) > 0 && TWO_64 % TotalWeight(sides, w) == 0
    ensures Chosen(sides, w, cursor + TotalWeight(sides, w)) == Chosen(sides, w, cursor)
  {
    hide TotalWeight, Walk;
    var total := TotalWeight(sides, w);
    RemainderOfRemainder(cursor, TWO_64, total);
    RemainderOfRemainder(cursor + total, TWO_64, total);
    SameRemainder(cursor, total);
  }

  lemma {:induction false} RemainderOfRemainder(x: nat, n: nat, m: nat)
    requires n > 0 && m > 0 && n % m == 0
    ensures x % n % m == x % m
  {
    var y := x % n;
    Parts(x, n);
    Parts(n, m);
    Parts(y, m);
    MultipleOfMultiple(x, x / n, n, n / m, m, y, y / m, y % m);
    RemainderIs(x, m, x / n * (n / m) + y / m, y % m);
  }

  lemma {:induction false} Parts(x: nat, n: nat)
    requires n > 0
    ensures x == x / n * n + x % n && 0 <= x % n < n
  {
  }

  lemma {:induction false} MultipleOfMultiple(x: nat, q: nat, n: nat, k: nat, m: nat, y: nat, p: nat, r: nat)
    requires x == q * n + y && n == k * m && y == p * m + r
    ensures x == (q * k + p) * m + r
  {
    assert q * (k * m) == (q * k) * m;
    assert (q * k + p) * m == (q * k) * m + p * m;
  }

  /** One side has all the weight there is. */
  ghost predicate OneCarriesAll(sides: seq<nat>, w: nat -> nat)
  {
    exists s :: s in sides && w(s) == TotalWeight(sides, w)
  }

  lemma {:induction false} OthersAreZero(sides: seq<nat>, w: nat -> nat, s: nat, side: nat)
    requires Ascending(NatLess, sides) && s in sides && side in sides && w(s) == TotalWeight(sides, w)
    ensures side != s ==> w(side) == 0
    decreases |sides|
  {
    NatOrder();
    TailElement(NatLess, sides, s);
    TailElement(NatLess, sides, side);
    if s == sides[0] {
      if side != s {
        NoWeight(sides[1..], w, side);
      }
    } else {
      WeightAtMost(sides[1..], w, s);
      if side != sides[0] {
        OthersAreZero(sides[1..], w, s, side);
      }
    }
  }

  lemma {:induction false} WeightAtMost(sides: seq<nat>, w: nat -> nat, s: nat)
    requires s in sides
    ensures w(s) <= TotalWeight(sides, w)
  {
    if s != sides[0] {
      assert sides == [sides[0]] + sides[1..];
      WeightAtMost(sides[1..], w, s);
    }
  }

  lemma {:induction false} NoWeight(sides: seq<nat>, w: nat -> nat, side: nat)
    requires TotalWeight(sides, w) == 0 && side in sides
    ensures w(side) == 0
  {
    WeightAtMost(sides, w, side);
  }

  /** Where the walk ends, the weight is positive. */
  lemma {:induction false} WalkIsWeighted(sides: seq<nat>, w: nat -> nat, remaining: nat)
    ensures Walk(sides, w, remaining).Some? ==> w(Walk(sides, w, remaining).value) > 0
    decreases |sides|
  {
    if |sides| > 0 && remaining >= w(sides[0]) {
      WalkIsWeighted(sides[1..], w, remaining - w(sides[0]));
    }
  }

  lemma {:induction false} AlwaysTheOne(sides: seq<nat>, w: nat -> nat, s: nat, cursor: nat, n: nat, side: nat)
    requires Ascending(NatLess, sides) && s in sides && side in sides && w(s) == TotalWeight(sides, w) > 0
    ensures Times(sides, w, cursor, n, side) == if side == s then n else 0
    decreases n
  {
    hide Walk, TotalWeight;
    if n > 0 {
      AlwaysOne(sides, w, cursor);
      var chosen := Chosen(sides, w, cursor).value;
      WalkIsWeighted(sides, w, cursor % TWO_64 % TotalWeight(sides, w));
      OthersAreZero(sides, w, s, chosen);
      AlwaysTheOne(sides, w, s, cursor + 1, n - 1, side);
    }
  }

  /**
    In any run of as many consecutive selections as the weights add up to, every side is chosen exactly its
    weight times: if the counter does not wrap, and also if it does but the total divides 2 to the 64 or one
    side carries it all.
   */
  lemma {:induction false} ExactShare(sides: seq<nat>, w: nat -> nat, cursor: nat, side: nat)
    requires Ascending(NatLess, sides) && side in sides
    requires || cursor + TotalWeight(sides, w) <= TWO_64
             || (TotalWeight(sides, w) > 0 && TWO_64 % TotalWeight(sides, w) == 0)
             || OneCarriesAll(sides, w)
    ensures Times(sides, w, cursor, TotalWeight(sides, w), side) == w(side)
    decreases cursor
  {
    hide Times, Chosen, Walk, Share, TotalWeight;
    var total := TotalWeight(sides, w);
    FullTurn(sides, w, side);
    if total == 0 {
      NoTimes(sides, w, cursor, side);
    } else if OneCarriesAll(sides, w) {
      var s :| s in sides && w(s) == total;
      AlwaysTheOne(sides, w, s, cursor, total, side);
      OthersAreZero(sides, w, s, side);
    } else if cursor == 0 {
      DivisorIsSmall(total);
      TimesIsShare(sides, w, 0, total, side);
    } else {
      ExactShare(sides, w, cursor - 1, side);
      if TWO_64 % total == 0 {
        ChosenPeriodicAcross(sides, w, cursor - 1);
      } else {
        ChosenPeriodic(sides, w, cursor - 1);
      }
      TimesShift(sides, w, cursor - 1, total, side);
    }
  }

  lemma {:induction false} DivisorIsSmall(m: nat)
    requires m > 0
    ensures TWO_64 % m == 0 ==> m <= TWO_64
  {
    if m > TWO_64 {
      RemainderIs(TWO_64, m, 0, TWO_64);
    }
  }

  lemma {:induction false} NoTimes(sides: seq<nat>, w: nat -> nat, cursor: nat, side: nat)
    ensures Times(sides, w, cursor, 0, side) == 0 && Share(sides, w, 0, 0, side) == 0
  {
  }

  // -------------------------------------------------------------------------
  // Across the wrap
  // -------------------------------------------------------------------------

  /** Every window of the counter, those across the wrap included, gives `side` its weight. */
  ghost predicate EveryWindowExact(sides: seq<nat>, w: nat -> nat, side: nat)
  {
    forall cursor: nat :: cursor < TWO_64 ==> Times(sides, w, cursor, TotalWeight(sides, w), side) == w(side)
  }

  lemma {:induction false} TimesWrap(sides: seq<nat>, w: nat -> nat, cursor: nat, n: nat, side: nat)
    ensures Times(sides, w, cursor + TWO_64, n, side) == Times(sides, w, cursor, n, side)
    decreases n
  {
    hide TotalWeight, Walk;
    if n > 0 {
      SameRemainder(cursor, TWO_64);
      TimesWrap(sides, w, cursor + 1, n - 1, side);
    }
  }

  /** Two windows one apart are both exact only if the choice that leaves is the choice that enters. */
  lemma {:induction false} LeavesAsEnters(sides: seq<nat>, w: nat -> nat, cursor: nat)
    requires TotalWeight(sides, w) > 0 && cursor < TWO_64
    requires forall side :: side in sides ==> EveryWindowExact(sides, w, side)
    ensures Chosen(sides, w, cursor + TotalWeight(sides, w)) == Chosen(sides, w, cursor)
  {
    hide Walk, TotalWeight, Chosen;
    var total := TotalWeight(sides, w);
    AlwaysOne(sides, w, cursor);
    AlwaysOne(sides, w, cursor + total);
    var side := Chosen(sides, w, cursor).value;
    assert EveryWindowExact(sides, w, side);
    if cursor + 1 == TWO_64 {
      TimesWrap(sides, w, 0, total, side);
    }
    assert Times(sides, w, cursor + 1, total, side) == w(side);
    assert Times(sides, w, cursor, total, side) == w(side);
    TimesLast(sides, w, cursor + 1, total, side);
    assert cursor + 1 + total - 1 == cursor + total;
  }

  /** What the walk meets first it meets on an initial stretch. */
  lemma {:induction false} WalkConvex(sides: seq<nat>, w: nat -> nat, x: nat, y: nat)
    requires Ascending(NatLess, sides) && x <= y && Walk(sides, w, y).Some? && Walk(sides, w, y) == Walk(sides, w, 0)
    ensures Walk(sides, w, x) == Walk(sides, w, 0)
    decreases |sides|
  {
    NatOrder();
    if y >= w(sides[0]) {
      WalkHits(sides[1..], w, y - w(sides[0]));
      TailElement(NatLess, sides, Walk(sides, w, y).value);
      assert w(sides[0]) == 0;
      WalkConvex(sides[1..], w, x, y);
    }
  }

  /** If it meets first what it meets last, that side carries all the weight. */
  lemma {:induction false} FirstIsLast(sides: seq<nat>, w: nat -> nat)
    requires Ascending(NatLess, sides) && TotalWeight(sides, w) > 0
    requires Walk(sides, w, TotalWeight(sides, w) - 1) == Walk(sides, w, 0)
    ensures Walk(sides, w, 0).Some? && Walk(sides, w, 0).value in sides
    ensures w(Walk(sides, w, 0).value) == TotalWeight(sides, w)
    decreases |sides|
  {
    NatOrder();
    WalkHits(sides, w, 0);
    var last := TotalWeight(sides, w) - 1;
    if last >= w(sides[0]) {
      WalkHits(sides[1..], w, last - w(sides[0]));
      TailElement(NatLess, sides, Walk(sides, w, last).value);
      assert w(sides[0]) == 0;
      FirstIsLast(sides[1..], w);
    } else {
      assert TotalWeight(sides[1..], w) == 0;
    }
  }

  lemma {:induction false} ChosenAtWrap(sides: seq<nat>, w: nat -> nat)
    requires 0 < TotalWeight(sides, w) < TWO_64 && TWO_64 % TotalWeight(sides, w) != 0
    ensures var total, r := TotalWeight(sides, w), TWO_64 % TotalWeight(sides, w);
            && 0 < r < total
            && Chosen(sides, w, TWO_64) == Walk(sides, w, 0) && Chosen(sides, w, TWO_64 - total) == Walk(sides, w, r)
            && Chosen(sides, w, TWO_64 - 1) == Walk(sides, w, r - 1)
            && Chosen(sides, w, TWO_64 - 1 + total) == Walk(sides, w, total - 1)
  {
    hide Walk, TotalWeight;
    var total := TotalWeight(sides, w);
    var q, r := TWO_64 / total, TWO_64 % total;
    RemainderIs(TWO_64, TWO_64, 1, 0);
    RemainderIs(0, total, 0, 0);
    assert TWO_64 - total == (q - 1) * total + r;
    RemainderIs(TWO_64 - total, total, q - 1, r);
    RemainderIs(TWO_64 - total, TWO_64, 0, TWO_64 - total);
    RemainderIs(TWO_64 - 1, total, q, r - 1);
    RemainderIs(TWO_64 - 1, TWO_64, 0, TWO_64 - 1);
    RemainderIs(TWO_64 - 1 + total, TWO_64, 1, total - 1);
    RemainderIs(total - 1, total, 0, total - 1);
  }

  /**
    Exactly when the share is exact in every window of the counter, across its wrap too: the total divides 2 to
    the 64, or one side carries it all. A sum of weights fits the counter's type.
   */
  lemma {:induction false} EveryWindowExactly(sides: seq<nat>, w: nat -> nat)
    requires Ascending(NatLess, sides) && 0 < TotalWeight(sides, w) <= TWO_64
    ensures (forall side :: side in sides ==> EveryWindowExact(sides, w, side)) <==>
            TWO_64 % TotalWeight(sides, w) == 0 || OneCarriesAll(sides, w)
  {
    hide TotalWeight, Walk, Chosen, Times;
    var total := TotalWeight(sides, w);
    if TWO_64 % total == 0 || OneCarriesAll(sides, w) {
      forall side, cursor: nat | side in sides && cursor < TWO_64
          ensures Times(sides, w, cursor, total, side) == w(side) {
        ExactShare(sides, w, cursor, side);
      }
    } else if forall side :: side in sides ==> EveryWindowExact(sides, w, side) {
      RemainderIs(TWO_64, TWO_64, 1, 0);
      ChosenAtWrap(sides, w);
      LeavesAsEnters(sides, w, TWO_64 - total);
      LeavesAsEnters(sides, w, TWO_64 - 1);
      var r := TWO_64 % total;
      WalkHits(sides, w, r);
      WalkConvex(sides, w, r - 1, r);
      FirstIsLast(sides, w);
    }
  }

  /** So three sides of weight one do not share exactly: across the wrap the first is chosen twice in a row. */
  lemma {:induction false} WrapSkewsShare(sides: seq<nat>, w: nat -> nat)
    requires |sides| == 3 && w(sides[0]) == w(sides[1]) == w(sides[2]) == 1
    ensures TotalWeight(sides, w) == 3
    ensures Chosen(sides, w, TWO_64 - 1) == Some(sides[0]) && Chosen(sides, w, TWO_64) == Some(sides[0])
  {
    assert TotalWeight(sides[2..], w) == w(sides[2]) + TotalWeight(sides[2..][1..], w);
    assert sides[1..][1..] == sides[2..];
    assert TotalWeight(sides[1..], w) == w(sides[1]) + TotalWeight(sides[1..][1..], w);
  }

  // -------------------------------------------------------------------------
  // Selection modes
  // -------------------------------------------------------------------------

  datatype Mode = Fanout | Weighted | Failover

  datatype Origin = Flood | Discovered

  /** What the relay is configured with and has measured; `None` stands for packets of its own. */
  datatype Settings = Settings(
    weights: map<(Option<nat>, nat), nat>, priorities: map<(Option<nat>, nat), nat>, modes: map<Option<nat>, Mode>,
    bandwidth: map<nat, nat>)

  function WeightOf(st: Settings, src: Option<nat>, side: nat): nat
  {
    if (src, side) in st.weights then st.weights[(src, side)] else 1
  }

  function PriorityOf(st: Settings, src: Option<nat>, side: nat): nat
  {
    if (src, side) in st.priorities then st.priorities[(src, side)] else 0
  }

  /** A measured side weighs its bandwidth, and at least one. */
  function MeasuredWeight(st: Settings, side: nat): nat
  {
    if side in st.bandwidth && st.bandwidth[side] > 0 then st.bandwidth[side] else 1
  }

  /** The weights in force, by configuration and by measurement. */
  function Configured(st: Settings, src: Option<nat>): nat -> nat
  {
    (side: nat) => WeightOf(st, src, side)
  }

  function Measured(st: Settings): nat -> nat
  {
    (side: nat) => MeasuredWeight(st, side)
  }

  function Unmeasured(st: Settings, sides: seq<nat>): seq<nat>
  {
    if |sides| == 0 then []
    else (if sides[0] in st.bandwidth then [] else [sides[0]]) + Unmeasured(st, sides[1..])
  }

  /** Lowest priority number, lowest side on a tie. */
  function First(st: Settings, src: Option<nat>, sides: seq<nat>): (r: nat)
    requires |sides| > 0
    ensures r in sides
  {
    if |sides| == 1 then sides[0]
    else
      var r := First(st, src, sides[1..]);
      if PriorityOf(st, src, sides[0]) <= PriorityOf(st, src, r) then sides[0] else r
  }

  function AsList(side: Option<nat>): seq<nat>
  {
    match side case None => [] case Some(x) => [x]
  }

  function Bumped(cursor: nat): nat { (cursor + 1) % TWO_64 }

  /** The chosen sides, and the cursor afterwards. The sides come in ascending order. */
  function Select(st: Settings, src: Option<nat>, sides: seq<nat>, origin: Origin, cursor: nat): (seq<nat>, nat)
  {
    if |sides| <= 1 then (sides, cursor)
    else if src !in st.modes && origin == Discovered then
      var unknown := Unmeasured(st, sides);
      if |unknown| > 0 then ([unknown[cursor % |unknown|]], Bumped(cursor))
      else (AsList(Chosen(sides, Measured(st), cursor)), Bumped(cursor))
    else match (if src in st.modes then st.modes[src] else Fanout)
      case Fanout => (sides, cursor)
      case Weighted =>
        if TotalWeight(sides, Configured(st, src)) == 0 then ([], cursor)
        else (AsList(Chosen(sides, Configured(st, src), cursor)), Bumped(cursor))
      case Failover => ([First(st, src, sides)], cursor)
  }

  lemma {:induction false} UnmeasuredElement(st: Settings, sides: seq<nat>, x: nat)
    ensures x in Unmeasured(st, sides) <==> x in sides && x !in st.bandwidth
  {
    if |sides| > 0 {
      UnmeasuredElement(st, sides[1..], x);
      assert sides == [sides[0]] + sides[1..];
    }
  }

  lemma {:induction false} MeasuredTotal(st: Settings, sides: seq<nat>)
    requires |sides| > 0
    ensures TotalWeight(sides, Measured(st)) > 0
  {
  }

  /** The least of (priority, side) over an ascending list. */
  lemma {:induction false} FirstIsLeast(st: Settings, src: Option<nat>, sides: seq<nat>, x: nat)
    requires |sides| > 0 && Ascending(NatLess, sides) && x in sides
    ensures var r := First(st, src, sides);
            PriorityOf(st, src, r) < PriorityOf(st, src, x)
                || (PriorityOf(st, src, r) == PriorityOf(st, src, x) && r <= x)
    decreases |sides|
  {
    if |sides| > 1 {
      var r := First(st, src, sides[1..]);
      assert sides == [sides[0]] + sides[1..];
      forall y | y in sides[1..] ensures sides[0] < y {
        var k :| 0 <= k < |sides[1..]| && sides[1..][k] == y;
        assert NatLess(sides[0], sides[k + 1]);
      }
      if x in sides[1..] {
        FirstIsLeast(st, src, sides[1..], x);
      }
    }
  }

  /**
    Selection invents no side. It keeps all of them in fan-out, and otherwise at most one: exactly one
    unless weights are in use and all of them are zero.
   */
  lemma {:induction false} SelectionMeaning(st: Settings, src: Option<nat>, sides: seq<nat>, origin: Origin,
      cursor: nat)
    ensures var (r, _) := Select(st, src, sides, origin, cursor);
            var mode := if src in st.modes then Some(st.modes[src]) else None;
            && (forall s :: s in r ==> s in sides)
            && (|sides| <= 1 || mode == Some(Fanout) || (mode == None && origin == Flood) ==> r == sides)
            && (|sides| > 1 && (mode == Some(Failover) || (mode == None && origin == Discovered)) ==> |r| == 1)
            && (|sides| > 1 && mode == Some(Weighted) ==>
                  |r| == if TotalWeight(sides, Configured(st, src)) > 0 then 1 else 0)
  {
    hide TotalWeight, Chosen;
    var unknown := Unmeasured(st, sides);
    if |unknown| > 0 {
      UnmeasuredElement(st, sides, unknown[cursor % |unknown|]);
    }
    AlwaysOne(sides, Measured(st), cursor);
    if |sides| > 0 {
      MeasuredTotal(st, sides);
    }
    AlwaysOne(sides, Configured(st, src), cursor);
  }

  // -------------------------------------------------------------------------
  // Successive selections
  // -------------------------------------------------------------------------

  /** Whether a selection goes by weight, and by which: as configured, or as measured once every side is. */
  function WeightsInForce(st: Settings, src: Option<nat>, sides: seq<nat>, origin: Origin): Option<nat -> nat>
  {
    if |sides| <= 1 then None
    else if src in st.modes then (if st.modes[src].Weighted? then Some(Configured(st, src)) else None)
    else if origin == Discovered && Unmeasured(st, sides) == [] then Some(Measured(st))
    else None
  }

  /** How often `side` is what is selected, in `n` selections that hand their cursor on. */
  function PickedTimes(
    st: Settings, src: Option<nat>, sides: seq<nat>, origin: Origin, cursor: nat, n: nat, side: nat): nat
    decreases n
  {
    if n == 0 then 0
    else
      var (picked, next) := Select(st, src, sides, origin, cursor);
      (if picked == [side] then 1 else 0) + PickedTimes(st, src, sides, origin, next, n - 1, side)
  }

  lemma {:induction false} TimesAfterBump(sides: seq<nat>, w: nat -> nat, cursor: nat, n: nat, side: nat)
    requires cursor < TWO_64
    ensures Times(sides, w, Bumped(cursor), n, side) == Times(sides, w, cursor + 1, n, side)
  {
    hide Times;
    SameRemainder(cursor + 1, TWO_64);
    if cursor + 1 == TWO_64 {
      TimesWrap(sides, w, 0, n, side);
    }
  }

  lemma {:induction false} OneSelection(
    st: Settings, src: Option<nat>, sides: seq<nat>, origin: Origin, w: nat -> nat, cursor: nat)
    requires WeightsInForce(st, src, sides, origin) == Some(w) && TotalWeight(sides, w) > 0
    ensures Select(st, src, sides, origin, cursor) == (AsList(Chosen(sides, w, cursor)), Bumped(cursor))
  {
    hide Chosen, Unmeasured, TotalWeight, Bumped;
  }

  /** Selections by weight pick a side exactly as often as the cursor's values point to it, wherever it stands. */
  lemma {:induction false} PicksAreTimes(
    st: Settings, src: Option<nat>, sides: seq<nat>, origin: Origin, w: nat -> nat, cursor: nat, n: nat, side: nat)
    requires WeightsInForce(st, src, sides, origin) == Some(w) && TotalWeight(sides, w) > 0 && cursor < TWO_64
    ensures PickedTimes(st, src, sides, origin, cursor, n, side) == Times(sides, w, cursor, n, side)
    decreases n
  {
    hide WeightsInForce, Select, TotalWeight, Chosen;
    if n > 0 {
      OneSelection(st, src, sides, origin, w, cursor);
      AlwaysOne(sides, w, cursor);
      PicksAreTimes(st, src, sides, origin, w, Bumped(cursor), n - 1, side);
      TimesAfterBump(sides, w, cursor, n - 1, side);
    }
  }

  /**
    So successive selections from one source, weighted or adaptive, share exactly: as many of them as the weights
    add up to pick every side exactly its weight times, from any stored cursor from which the window is exact.
   */
  lemma {:induction false} SelectionsShareExactly(
    st: Settings, src: Option<nat>, sides: seq<nat>, origin: Origin, w: nat -> nat, cursor: nat, side: nat)
    requires WeightsInForce(st, src, sides, origin) == Some(w) && TotalWeight(sides, w) > 0 && cursor < TWO_64
    requires Ascending(NatLess, sides) && side in sides
    requires || cursor + TotalWeight(sides, w) <= TWO_64
             || TWO_64 % TotalWeight(sides, w) == 0
             || OneCarriesAll(sides, w)
    ensures PickedTimes(st, src, sides, origin, cursor, TotalWeight(sides, w), side) == w(side)
  {
    hide WeightsInForce, TotalWeight, Times, PickedTimes;
    PicksAreTimes(st, src, sides, origin, w, cursor, TotalWeight(sides, w), side);
    ExactShare(sides, w, cursor, side);
  }

  // -------------------------------------------------------------------------
  // The loop
  // -------------------------------------------------------------------------

  lemma {:induction false} PickIs(sides: seq<nat>, w: nat -> nat, cursor: nat)
    requires cursor < TWO_64 && TotalWeight(sides, w) > 0
    ensures Chosen(sides, w, cursor) == Walk(sides, w, cursor % TotalWeight(sides, w))
  {
    hide Walk, TotalWeight;
    SameRemainder(cursor, TWO_64);
  }

  /** One weighted selection; the cursor is advanced in place. */
  method PickWeighted(sides: seq<nat>, w: nat -> nat, cursor: nat) returns (picked: seq<nat>, next: nat)
    requires cursor < TWO_64
    ensures (picked, next) == if TotalWeight(sides, w) == 0 then ([], cursor)
                              else (AsList(Chosen(sides, w, cursor)), Bumped(cursor))
  {
    hide Chosen;
    var total := 0;
    var rest := sides;
    while |rest| > 0
      invariant total + TotalWeight(rest, w) == TotalWeight(sides, w)
      decreases |rest|
    {
      total := total + w(rest[0]);
      rest := rest[1..];
    }
    if total == 0 {
      return [], cursor;
    }
    next := (cursor + 1) % TWO_64;
    var pick := cursor % total;
    PickIs(sides, w, cursor);
    var remaining: nat := pick;
    rest := sides;
    while |rest| > 0
      invariant Walk(rest, w, remaining) == Chosen(sides, w, cursor)
      decreases |rest|
    {
      var weight := w(rest[0]);
      if remaining < weight {
        return [rest[0]], next;
      }
      remaining := remaining - weight;
      rest := rest[1..];
    }
    picked := [];
  }
}
