/** The 64-bit hash behind packet IDs: what it computes, byte by byte, and what it cannot confuse. */
module PacketHash {
  import opened LittleEndian

  /** Exclusive or of two words, from the lowest bit up. */
  function Xor(a: nat, b: nat): nat
  {
    if a == 0 && b == 0 then 0 else 2 * Xor(a / 2, b / 2) + (if a % 2 == b % 2 then 0 else 1)
  }

  /** Logical shift to the right. */
  function Shr(a: nat, k: nat): nat
  {
    if k == 0 then a else Shr(a / 2, k - 1)
  }

  /** One step: the byte enters by exclusive or, then come a wrapping product and a copy shifted by 27 bits. */
  function Mix(h: nat, b: Byte): nat
  {
    var x := Xor(h, b) * 0x9E37_79B1 % TWO_64;
    Xor(x, Shr(x, 27))
  }

  function HashBytes(h: nat, bytes: Bytes): nat
    decreases |bytes|
  {
    if |bytes| == 0 then h else HashBytes(Mix(h, bytes[0]), bytes[1..])
  }

  // -------------------------------------------------------------------------
  // The hash runs over the bytes one by one
  // -------------------------------------------------------------------------

  /** Hashing one string after another is hashing both joined. */
  lemma {:induction false} HashOfConcat(h: nat, a: Bytes, b: Bytes)
    ensures HashBytes(h, a + b) == HashBytes(HashBytes(h, a), b)
    decreases |a|
  {
    hide Mix;
    if |a| == 0 {
      assert a + b == b;
    } else {
      assert (a + b)[1..] == a[1..] + b;
      HashOfConcat(Mix(h, a[0]), a[1..], b);
    }
  }

  /** Hashing nothing changes nothing, and hashing one byte is one step. */
  lemma {:induction false} HashOfOne(h: nat, b: Byte)
    ensures HashBytes(h, []) == h && HashBytes(h, [b]) == Mix(h, b)
  {
    hide Mix;
    assert [b][1..] == [];
  }

  /** The states `hs` lead from `h` over the bytes: each is one step on from the one before. */
  ghost predicate HashRun(hs: seq<nat>, h: nat, bytes: Bytes)
  {
    && |hs| == |bytes| + 1 && hs[0] == h
    && forall i :: 0 <= i < |bytes| ==>
         var x := Xor(hs[i], bytes[i]) * 0x9E37_79B1 % TWO_64; hs[i + 1] == Xor(x, Shr(x, 27))
  }

  /** There is such a run, and the hash is its last state. */
  lemma {:induction false} HashHasRun(h: nat, bytes: Bytes) returns (hs: seq<nat>)
    ensures HashRun(hs, h, bytes) && HashBytes(h, bytes) == hs[|bytes|]
    decreases |bytes|
  {
    hide Xor, Shr;
    if |bytes| == 0 {
      hs := [h];
    } else {
      var rest := HashHasRun(Mix(h, bytes[0]), bytes[1..]);
      hs := [h] + rest;
      assert forall i :: 0 < i < |bytes| ==> bytes[i] == bytes[1..][i - 1];
    }
  }

  // -------------------------------------------------------------------------
  // Words
  // -------------------------------------------------------------------------

  lemma {:induction false} XorSymmetric(a: nat, b: nat)
    ensures Xor(a, b) == Xor(b, a)
  {
    if a != 0 || b != 0 {
      XorSymmetric(a / 2, b / 2);
    }
  }

  lemma {:induction false} XorAssociative(a: nat, b: nat, c: nat)
    ensures Xor(Xor(a, b), c) == Xor(a, Xor(b, c))
    decreases a + b + c
  {
    if a != 0 || b != 0 || c != 0 {
      XorAssociative(a / 2, b / 2, c / 2);
      XorParts(a, b);
      XorParts(b, c);
      XorParts(Xor(a, b), c);
      XorParts(a, Xor(b, c));
    }
  }

  /** The lowest bit and the rest of an exclusive or. */
  lemma {:induction false} XorParts(a: nat, b: nat)
    ensures Xor(a, b) / 2 == Xor(a / 2, b / 2) && Xor(a, b) % 2 == (if a % 2 == b % 2 then 0 else 1)
    ensures Xor(a, b) == 2 * (Xor(a, b) / 2) + Xor(a, b) % 2
  {
  }

  lemma {:induction false} XorWithZero(a: nat)
    ensures Xor(a, 0) == a
  {
    if a != 0 {
      XorWithZero(a / 2);
    }
  }

  lemma {:induction false} XorZeroExactly(a: nat, b: nat)
    ensures Xor(a, b) == 0 <==> a == b
  {
    if a != 0 || b != 0 {
      XorZeroExactly(a / 2, b / 2);
    }
  }

  /** Exclusive or with the same word twice changes nothing. */
  lemma {:induction false} XorTwice(a: nat, b: nat)
    ensures Xor(Xor(a, b), b) == a
  {
    XorAssociative(a, b, b);
    XorZeroExactly(b, b);
    XorWithZero(a);
  }

  function Pow2(k: nat): nat
  {
    if k == 0 then 1 else 2 * Pow2(k - 1)
  }

  lemma {:induction false} XorBound(a: nat, b: nat, k: nat)
    requires a < Pow2(k) && b < Pow2(k)
    ensures Xor(a, b) < Pow2(k)
    decreases k
  {
    if k > 0 {
      XorBound(a / 2, b / 2, k - 1);
    }
  }

  lemma {:induction false} ShrOfXor(a: nat, b: nat, k: nat)
    ensures Shr(Xor(a, b), k) == Xor(Shr(a, k), Shr(b, k))
    decreases k
  {
    if k > 0 {
      XorParts(a, b);
      ShrOfXor(a / 2, b / 2, k - 1);
    }
  }

  lemma {:induction false} ShrBound(a: nat, k: nat)
    ensures Shr(a, k) <= a && (a > 0 && k > 0 ==> Shr(a, k) < a)
    decreases k
  {
    if k > 0 {
      ShrBound(a / 2, k - 1);
    }
  }

  /** A shift divides, rounding down. */
  lemma {:induction false} ShrDivides(a: nat, k: nat)
    ensures Shr(a, k) * Pow2(k) <= a < (Shr(a, k) + 1) * Pow2(k)
    decreases k
  {
    if k > 0 {
      ShrDivides(a / 2, k - 1);
      TwiceAsLarge(a, Shr(a / 2, k - 1), Pow2(k - 1));
    }
  }

  lemma {:induction false} TwiceAsLarge(a: nat, q: nat, p: nat)
    requires q * p <= a / 2 < (q + 1) * p
    ensures q * (2 * p) <= a < (q + 1) * (2 * p)
  {
    assert q * (2 * p) == 2 * (q * p) && (q + 1) * (2 * p) == 2 * ((q + 1) * p);
  }

  /** Exclusive or goes bit by bit. */
  lemma {:induction false} XorBit(a: nat, b: nat, i: nat)
    ensures Shr(Xor(a, b), i) % 2 == 1 <==> (Shr(a, i) % 2 == 1) != (Shr(b, i) % 2 == 1)
  {
    hide Xor, Shr;
    ShrOfXor(a, b, i);
    XorParts(Shr(a, i), Shr(b, i));
  }

  /** 2^64 as a power. */
  lemma {:induction false} WordSize()
    ensures Pow2(64) == TWO_64
  {
    assert Pow2(8) == 0x100;
    assert Pow2(16) == 0x1_0000;
    assert Pow2(24) == 0x100_0000;
    assert Pow2(32) == 0x1_0000_0000;
    assert Pow2(40) == 0x100_0000_0000;
    assert Pow2(48) == 0x1_0000_0000_0000;
    assert Pow2(56) == 0x100_0000_0000_0000;
  }

  // -------------------------------------------------------------------------
  // No step loses anything
  // -------------------------------------------------------------------------

  function Times(x: nat): nat
  {
    x * 0x9E37_79B1 % TWO_64
  }

  function Stirred(x: nat): nat
  {
    Xor(x, Shr(x, 27))
  }

  lemma {:induction false} MixIs(h: nat, b: Byte)
    ensures Mix(h, b) == Stirred(Times(Xor(h, b)))
  {
    hide Xor, Shr;
  }

  /** The multiplier is odd: another product takes the wrapping product back. */
  lemma {:induction false} TimesBack(x: nat)
    requires x < TWO_64
    ensures Times(x) * 0xCFA4_A56B_0E8B_2F51 % TWO_64 == x
  {
    var q := x * 0x9E37_79B1 / TWO_64;
    assert Times(x) == x * 0x9E37_79B1 - q * TWO_64;
    var k := 0x80549D2C * x - q * 0xCFA4_A56B_0E8B_2F51;
    assert Times(x) * 0xCFA4_A56B_0E8B_2F51 == k * TWO_64 + x;
  }

  /** A word is known from itself joined with its shifted copy. */
  lemma {:induction false} StirredTells(x: nat, y: nat)
    requires Stirred(x) == Stirred(y)
    ensures x == y
  {
    hide Xor, Shr;
    var d := Xor(x, y);
    ShrOfXor(x, y, 27);
    XorSwap(x, Shr(x, 27), y, Shr(y, 27));
    XorZeroExactly(Stirred(x), Stirred(y));
    XorZeroExactly(d, Shr(d, 27));
    ShrBound(d, 27);
    XorZeroExactly(x, y);
  }

  lemma {:induction false} XorSwap(a: nat, b: nat, c: nat, d: nat)
    ensures Xor(Xor(a, b), Xor(c, d)) == Xor(Xor(a, c), Xor(b, d))
  {
    hide Xor;
    XorAssociative(a, b, Xor(c, d));
    XorAssociative(b, c, d);
    XorSymmetric(b, c);
    XorAssociative(c, b, d);
    XorAssociative(a, c, Xor(b, d));
  }

  lemma {:induction false} MixBound(h: nat, b: Byte)
    requires h < TWO_64
    ensures Xor(h, b) < TWO_64 && Mix(h, b) < TWO_64
  {
    hide Xor, Shr, Pow2;
    WordSize();
    XorBound(h, b, 64);
    var x := Times(Xor(h, b));
    ShrBound(x, 27);
    XorBound(x, Shr(x, 27), 64);
  }

  /** A step forgets neither the state nor the byte: each can be told from the result and the other one. */
  lemma {:induction false} MixInjective(h: nat, g: nat, b: Byte, c: Byte)
    requires h < TWO_64 && g < TWO_64
    ensures Mix(h, b) == Mix(g, b) ==> h == g
    ensures Mix(h, b) == Mix(h, c) ==> b == c
  {
    hide Xor, Mix, Times, Stirred;
    if Mix(h, b) == Mix(g, b) {
      StepTells(h, g, b, b);
      XorTwice(h, b);
      XorTwice(g, b);
    }
    if Mix(h, b) == Mix(h, c) {
      StepTells(h, h, b, c);
      XorSymmetric(h, b);
      XorSymmetric(h, c);
      XorTwice(b, h);
      XorTwice(c, h);
    }
  }

  lemma {:induction false} StepTells(h: nat, g: nat, b: Byte, c: Byte)
    requires h < TWO_64 && g < TWO_64 && Mix(h, b) == Mix(g, c)
    ensures Xor(h, b) == Xor(g, c)
  {
    hide Xor, Mix, Times, Stirred;
    MixIs(h, b);
    MixIs(g, c);
    MixBound(h, b);
    MixBound(g, c);
    StirredTells(Times(Xor(h, b)), Times(Xor(g, c)));
    TimesBack(Xor(h, b));
    TimesBack(Xor(g, c));
  }

  lemma {:induction false} HashBound(h: nat, bytes: Bytes)
    requires h < TWO_64
    ensures HashBytes(h, bytes) < TWO_64
    decreases |bytes|
  {
    hide Mix;
    if |bytes| > 0 {
      MixBound(h, bytes[0]);
      HashBound(Mix(h, bytes[0]), bytes[1..]);
    }
  }

  /** From different states the same bytes lead to different states. */
  lemma {:induction false} HashInjective(h: nat, g: nat, bytes: Bytes)
    requires h < TWO_64 && g < TWO_64
    ensures HashBytes(h, bytes) == HashBytes(g, bytes) ==> h == g
    decreases |bytes|
  {
    hide Mix;
    if |bytes| > 0 {
      MixBound(h, bytes[0]);
      MixBound(g, bytes[0]);
      HashInjective(Mix(h, bytes[0]), Mix(g, bytes[0]), bytes[1..]);
      MixInjective(h, g, bytes[0], bytes[0]);
    }
  }

  /** Byte strings that differ in exactly one byte never have the same hash. */
  lemma {:induction false} OneByteTells(h: nat, a: Bytes, b: Byte, c: Byte, d: Bytes)
    requires h < TWO_64 && b != c
    ensures HashBytes(h, a + [b] + d) != HashBytes(h, a + [c] + d)
  {
    hide HashBytes, Mix;
    var g := HashBytes(h, a);
    HashBound(h, a);
    HashOfConcat(h, a + [b], d);
    HashOfConcat(h, a + [c], d);
    HashOfConcat(h, a, [b]);
    HashOfConcat(h, a, [c]);
    HashOfOne(g, b);
    HashOfOne(g, c);
    MixBound(g, b);
    MixBound(g, c);
    MixInjective(g, g, b, c);
    HashInjective(Mix(g, b), Mix(g, c), d);
  }
}
