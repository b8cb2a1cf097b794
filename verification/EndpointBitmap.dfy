/** Endpoint sets as bitmaps: one bit for each endpoint number, lowest bit first within a byte. */
module EndpointBitmap {
  import opened Wrappers
  import opened LittleEndian
  import opened CanonicalLists

  // -------------------------------------------------------------------------
  // Bits
  // -------------------------------------------------------------------------

  function Shifted(b: nat, k: nat): nat
    decreases k
  {
    if k == 0 then b else Shifted(b / 2, k - 1)
  }

  predicate Bit(b: nat, k: nat)
  {
    Shifted(b, k) % 2 == 1
  }

  function WithBit(b: nat, k: nat): nat
    decreases k
  {
    if k == 0 then (if b % 2 == 1 then b else b + 1) else b % 2 + 2 * WithBit(b / 2, k - 1)
  }

  function Ones(b: nat): nat
  {
    if b == 0 then 0 else b % 2 + Ones(b / 2)
  }

  function Pow2(n: nat): (r: nat)
    ensures r >= 1
  {
    if n == 0 then 1 else 2 * Pow2(n - 1)
  }

  /** Bit `k` is the one of weight 2 to the power of `k`. */
  lemma {:induction false} BitWeight(b: nat, k: nat) returns (q: nat, r: nat)
    ensures b == (2 * q + if Bit(b, k) then 1 else 0) * Pow2(k) + r && r < Pow2(k)
    decreases k
  {
    if k == 0 {
      q, r := b / 2, 0;
    } else {
      var s: nat;
      q, s := BitWeight(b / 2, k - 1);
      r := 2 * s + b % 2;
      Reweighed(b, 2 * q + if Bit(b / 2, k - 1) then 1 else 0, Pow2(k - 1), s);
    }
  }

  lemma {:induction false} Reweighed(b: nat, x: nat, p: nat, s: nat)
    requires b / 2 == x * p + s && s < p
    ensures b == x * (2 * p) + (2 * s + b % 2) && 2 * s + b % 2 < 2 * p
  {
    assert x * (2 * p) == 2 * (x * p);
  }

  lemma {:induction false} WithBitMeaning(b: nat, k: nat, j: nat)
    ensures Bit(WithBit(b, k), j) <==> j == k || Bit(b, j)
    decreases k
  {
    if k > 0 && j > 0 {
      WithBitMeaning(b / 2, k - 1, j - 1);
    }
  }

  lemma {:induction false} WithBitStaysSmall(b: nat, k: nat, n: nat)
    requires k < n && b < Pow2(n)
    ensures WithBit(b, k) < Pow2(n)
    decreases n
  {
    var half := Pow2(n - 1);
    assert Pow2(n) == 2 * half;
    if k > 0 {
      assert b / 2 < half;
      WithBitStaysSmall(b / 2, k - 1, n - 1);
      assert WithBit(b, k) == b % 2 + 2 * WithBit(b / 2, k - 1);
    }
  }

  lemma {:induction false} EightBits()
    ensures Pow2(8) == 256
  {
    assert Pow2(4) == 16;
  }

  lemma {:induction false} ShiftedAway(b: nat, n: nat)
    requires b < Pow2(n)
    ensures Shifted(b, n) == 0
    decreases n
  {
    if n > 0 {
      ShiftedAway(b / 2, n - 1);
    }
  }

  lemma {:induction false} ShiftedNext(b: nat, k: nat)
    ensures Shifted(b, k + 1) == Shifted(b, k) / 2
    decreases k
  {
    if k > 0 {
      ShiftedNext(b / 2, k - 1);
    }
  }

  // -------------------------------------------------------------------------
  // Bitmaps
  // -------------------------------------------------------------------------

  /** Bytes needed for `bits` bits. */
  function MapBytes(bits: nat): (n: nat)
    ensures 8 * n >= bits
  {
    (bits + 7) / 8
  }

  predicate IsSet(bm: Bytes, idx: nat)
  {
    idx / 8 < |bm| && Bit(bm[idx / 8], idx % 8)
  }

  function SetAt(bm: Bytes, idx: nat): (r: Bytes)
    requires idx / 8 < |bm|
    ensures |r| == |bm|
  {
    SetFits(bm[idx / 8], idx % 8);
    bm[idx / 8 := WithBit(bm[idx / 8], idx % 8)]
  }

  lemma {:induction false} SetFits(b: Byte, k: nat)
    requires k < 8
    ensures WithBit(b, k) < 256
  {
    EightBits();
    WithBitStaysSmall(b, k, 8);
  }

  /** Sets the bit of every listed endpoint that has one. */
  function BuildOn(bm: Bytes, eps: seq<nat>, bits: nat): (r: Bytes)
    requires |bm| == MapBytes(bits)
    ensures |r| == |bm|
    decreases |eps|
  {
    if |eps| == 0 then bm
    else BuildOn(if eps[0] < bits then SetAt(bm, eps[0]) else bm, eps[1..], bits)
  }

  function Build(eps: seq<nat>, bits: nat): (r: Bytes)
    ensures |r| == MapBytes(bits)
  {
    BuildOn(seq(MapBytes(bits), i => 0), eps, bits)
  }

  /** The numbers of the set bits in ascending order, or nothing if one of them is no endpoint. */
  function ExpandFrom(isEndpoint: nat -> bool, bm: Bytes, idx: nat, bits: nat): Option<seq<nat>>
    requires idx <= bits
    decreases bits - idx
  {
    if idx == bits then Some([])
    else match ExpandFrom(isEndpoint, bm, idx + 1, bits)
      case None => None
      case Some(rest) =>
        if !IsSet(bm, idx) then Some(rest) else if isEndpoint(idx) then Some([idx] + rest) else None
  }

  function Expand(isEndpoint: nat -> bool, bm: Bytes, bits: nat): Option<seq<nat>>
  {
    ExpandFrom(isEndpoint, bm, 0, bits)
  }

  function Popcount(bm: Bytes): nat
  {
    if |bm| == 0 then 0 else Ones(bm[0]) + Popcount(bm[1..])
  }

  // -------------------------------------------------------------------------
  // Expanding what was built
  // -------------------------------------------------------------------------

  lemma {:induction false} SetAtMeaning(bm: Bytes, idx: nat, k: nat)
    requires idx / 8 < |bm|
    ensures IsSet(SetAt(bm, idx), k) <==> k == idx || IsSet(bm, k)
  {
    hide Bit, WithBit;
    if k / 8 == idx / 8 {
      WithBitMeaning(bm[idx / 8], idx % 8, k % 8);
    }
  }

  lemma {:induction false} BuildOnMeaning(bm: Bytes, eps: seq<nat>, bits: nat, k: nat)
    requires |bm| == MapBytes(bits)
    ensures IsSet(BuildOn(bm, eps, bits), k) <==> IsSet(bm, k) || (k in eps && k < bits)
    decreases |eps|
  {
    if |eps| > 0 {
      hide IsSet, SetAt;
      assert eps == [eps[0]] + eps[1..];
      var next := if eps[0] < bits then SetAt(bm, eps[0]) else bm;
      BuildOnMeaning(next, eps[1..], bits, k);
      if eps[0] < bits {
        SetAtMeaning(bm, eps[0], k);
      }
    }
  }

  lemma {:induction false} ZeroHasNoBits(k: nat)
    ensures !Bit(0, k)
  {
    ShiftedZero(k);
  }

  lemma {:induction false} ShiftedZero(k: nat)
    ensures Shifted(0, k) == 0
  {
    if k > 0 {
      ShiftedZero(k - 1);
    }
  }

  lemma {:induction false} BuildMeaning(eps: seq<nat>, bits: nat, k: nat)
    ensures IsSet(Build(eps, bits), k) <==> k in eps && k < bits
  {
    var zeros: Bytes := seq(MapBytes(bits), i => 0);
    BuildOnMeaning(zeros, eps, bits, k);
    ZeroHasNoBits(k % 8);
  }

  lemma {:induction false} ExpandFromMeaning(isEndpoint: nat -> bool, bm: Bytes, idx: nat, bits: nat)
    requires idx <= bits
    ensures var r := ExpandFrom(isEndpoint, bm, idx, bits);
            && (r.Some? <==> forall k :: idx <= k < bits && IsSet(bm, k) ==> isEndpoint(k))
            && (r.Some? ==> Ascending(NatLess, r.value)
                            && forall k :: k in r.value <==> idx <= k < bits && IsSet(bm, k))
    decreases bits - idx
  {
    if idx < bits {
      hide IsSet;
      ExpandFromMeaning(isEndpoint, bm, idx + 1, bits);
      var rest := ExpandFrom(isEndpoint, bm, idx + 1, bits);
      if rest.Some? && IsSet(bm, idx) && isEndpoint(idx) {
        var r := [idx] + rest.value;
        forall i, j | 0 <= i < j < |r| ensures NatLess(r[i], r[j]) {
          assert r[j] in rest.value;
        }
      }
    }
  }

  /** Building and expanding an endpoint list sorts it and drops repetitions. */
  lemma {:induction false} ExpandAfterBuild(isEndpoint: nat -> bool, eps: seq<nat>, bits: nat)
    requires forall i :: 0 <= i < |eps| ==> eps[i] < bits && isEndpoint(eps[i])
    ensures Expand(isEndpoint, Build(eps, bits), bits) == Some(SortNats(eps))
  {
    hide IsSet, Build;
    var bm := Build(eps, bits);
    forall k: nat ensures IsSet(bm, k) <==> k in eps && k < bits {
      BuildMeaning(eps, bits, k);
    }
    ExpandFromMeaning(isEndpoint, bm, 0, bits);
    NatOrder();
    SortDedupMeaning(NatLess, eps);
    AscendingUnique(NatLess, Expand(isEndpoint, bm, bits).value, SortNats(eps));
  }

  // -------------------------------------------------------------------------
  // Counting
  // -------------------------------------------------------------------------

  /** Set bits among `idx`, ..., `end - 1`. */
  function CountSet(bm: Bytes, idx: nat, end: nat): nat
    requires idx <= end
    decreases end - idx
  {
    if idx == end then 0 else (if IsSet(bm, idx) then 1 else 0) + CountSet(bm, idx + 1, end)
  }

  lemma {:induction false} CountSplit(bm: Bytes, a: nat, b: nat, c: nat)
    requires a <= b <= c
    ensures CountSet(bm, a, c) == CountSet(bm, a, b) + CountSet(bm, b, c)
    decreases b - a
  {
    if a < b {
      hide IsSet;
      CountSplit(bm, a + 1, b, c);
    }
  }

  lemma {:induction false} ByteCount(bm: Bytes, j: nat, k: nat)
    requires j < |bm| && k <= 8
    ensures CountSet(bm, 8 * j + k, 8 * j + 8) == Ones(Shifted(bm[j], k))
    decreases 8 - k
  {
    if k == 8 {
      EightBits();
      ShiftedAway(bm[j], 8);
    } else {
      ByteCount(bm, j, k + 1);
      ShiftedNext(bm[j], k);
      assert (8 * j + k) / 8 == j && (8 * j + k) % 8 == k;
    }
  }

  lemma {:induction false} PopcountFrom(bm: Bytes, j: nat)
    requires j <= |bm|
    ensures CountSet(bm, 8 * j, 8 * |bm|) == Popcount(bm[j..])
    decreases |bm| - j
  {
    if j < |bm| {
      hide IsSet;
      CountSplit(bm, 8 * j, 8 * j + 8, 8 * |bm|);
      ByteCount(bm, j, 0);
      PopcountFrom(bm, j + 1);
      assert bm[j..][1..] == bm[j + 1..];
    }
  }

  lemma {:induction false} ExpandLength(isEndpoint: nat -> bool, bm: Bytes, idx: nat, bits: nat)
    requires idx <= bits && ExpandFrom(isEndpoint, bm, idx, bits).Some?
    ensures |ExpandFrom(isEndpoint, bm, idx, bits).value| == CountSet(bm, idx, bits)
    decreases bits - idx
  {
    if idx < bits {
      hide IsSet;
      ExpandLength(isEndpoint, bm, idx + 1, bits);
    }
  }

  lemma {:induction false} NothingAbove(bm: Bytes, idx: nat, end: nat)
    requires idx <= end && forall k :: idx <= k < end ==> !IsSet(bm, k)
    ensures CountSet(bm, idx, end) == 0
    decreases end - idx
  {
    if idx < end {
      hide IsSet;
      NothingAbove(bm, idx + 1, end);
    }
  }

  /** The population count of a built bitmap is the number of distinct endpoints. */
  lemma {:induction false} PopcountAfterBuild(isEndpoint: nat -> bool, eps: seq<nat>, bits: nat)
    requires forall i :: 0 <= i < |eps| ==> eps[i] < bits && isEndpoint(eps[i])
    ensures Popcount(Build(eps, bits)) == |SortNats(eps)|
  {
    hide IsSet, Build, CountSet;
    var bm := Build(eps, bits);
    forall k: nat ensures IsSet(bm, k) <==> k in eps && k < bits {
      BuildMeaning(eps, bits, k);
    }
    ExpandAfterBuild(isEndpoint, eps, bits);
    ExpandLength(isEndpoint, bm, 0, bits);
    CountSplit(bm, 0, bits, 8 * |bm|);
    NothingAbove(bm, bits, 8 * |bm|);
    PopcountFrom(bm, 0);
    assert bm[0..] == bm;
  }

  // -------------------------------------------------------------------------
  // The loops
  // -------------------------------------------------------------------------

  method BuildEndpointBitmap(eps: seq<nat>, bits: nat) returns (bm: array<Byte>)
    ensures fresh(bm) && bm[..] == Build(eps, bits)
  {
    bm := new Byte[MapBytes(bits)](i => 0);
    assert bm[..] == seq(MapBytes(bits), i => 0);
    var rest := eps;
    while |rest| > 0
      invariant bm.Length == MapBytes(bits) && BuildOn(bm[..], rest, bits) == Build(eps, bits)
      decreases |rest|
    {
      var idx := rest[0];
      if idx < bits {
        ghost var before := bm[..];
        SetFits(bm[idx / 8], idx % 8);
        bm[idx / 8] := WithBit(bm[idx / 8], idx % 8);
        assert bm[..] == SetAt(before, idx);
      }
      rest := rest[1..];
    }
  }

  method ExpandEndpointBitmap(isEndpoint: nat -> bool, bm: Bytes, bits: nat) returns (r: Option<seq<nat>>)
    ensures r == Expand(isEndpoint, bm, bits)
  {
    var found: seq<nat> := [];
    var idx: nat := 0;
    ghost var all := Expand(isEndpoint, bm, bits);
    assert all.Some? ==> [] + all.value == all.value;
    while idx < bits
      invariant idx <= bits
      invariant all == match ExpandFrom(isEndpoint, bm, idx, bits)
                       case None => None
                       case Some(rest) => Some(found + rest)
    {
      if IsSet(bm, idx) {
        if !isEndpoint(idx) {
          return None;
        }
        ghost var rest := ExpandFrom(isEndpoint, bm, idx + 1, bits);
        assert rest.Some? ==> found + ([idx] + rest.value) == (found + [idx]) + rest.value;
        found := found + [idx];
      }
      idx := idx + 1;
    }
    assert found + [] == found;
    r := Some(found);
  }
}
