/** Bytes, and fixed-width little-endian integers inside byte strings. */
module LittleEndian {
  type Byte = b: int | 0 <= b < 256

  type Bytes = seq<Byte>

  const TWO_32: nat := 0x1_0000_0000
  const TWO_64: nat := 0x1_0000_0000_0000_0000

  /** `part` sits in `whole` at offset `at`. */
  ghost predicate Holds(whole: Bytes, at: nat, part: Bytes)
  {
    at + |part| <= |whole| && forall i :: 0 <= i < |part| ==> whole[at + i] == part[i]
  }

  lemma HoldsSplit(whole: Bytes, at: nat, a: Bytes, b: Bytes)
    requires Holds(whole, at, a + b)
    ensures Holds(whole, at, a) && Holds(whole, at + |a|, b)
  {
    var ab := a + b;
    forall i | 0 <= i < |a| ensures whole[at + i] == a[i] { assert ab[i] == a[i]; }
    forall i | 0 <= i < |b| ensures whole[at + |a| + i] == b[i] { assert ab[|a| + i] == b[i]; }
  }

  /** Digit `i` of `n` in base 256, the lowest digit first. */
  function Digit(n: nat, i: nat): Byte
    decreases i
  {
    if i == 0 then n % 256 else Digit(n / 256, i - 1)
  }

  /** The low `width` bytes of `n`, least significant first. */
  function Le(n: nat, width: nat): (r: Bytes)
    ensures |r| == width
  {
    seq(width, i requires 0 <= i < width => Digit(n, i))
  }

  /** Byte `i` of a field is the digit of weight 256 to the power of `i`. */
  lemma {:induction false} LeByte(n: nat, width: nat, i: nat) returns (q: nat, r: nat)
    requires i < width
    ensures n == (q * 256 + Le(n, width)[i]) * Pow256(i) + r && r < Pow256(i)
  {
    q, r := DigitWeight(n, i);
  }

  lemma {:induction false} DigitWeight(n: nat, i: nat) returns (q: nat, r: nat)
    ensures n == (q * 256 + Digit(n, i)) * Pow256(i) + r && r < Pow256(i)
    decreases i
  {
    if i == 0 {
      q, r := n / 256, 0;
    } else {
      var s: nat;
      q, s := DigitWeight(n / 256, i - 1);
      r := 256 * s + n % 256;
      Reweighed(n, q * 256 + Digit(n / 256, i - 1), Pow256(i - 1), s);
    }
  }

  lemma {:induction false} Reweighed(n: nat, x: nat, p: nat, s: nat)
    requires n / 256 == x * p + s && s < p
    ensures n == x * (256 * p) + (256 * s + n % 256) && 256 * s + n % 256 < 256 * p
  {
    assert x * (256 * p) == 256 * (x * p);
  }

  /** The number a byte string spells, least significant byte first. */
  function Value(b: Bytes): nat
  {
    if |b| == 0 then 0
    else
      var low: int := b[0];
      low + 256 * Value(b[1..])
  }

  function ReadLe(s: Bytes, at: nat, width: nat): nat
    requires at + width <= |s|
  {
    Value(s[at..at + width])
  }

  function Pow256(k: nat): (r: nat)
    ensures r >= 1
  {
    if k == 0 then 1 else 256 * Pow256(k - 1)
  }

  lemma Widths()
    ensures Pow256(4) == TWO_32 && Pow256(8) == TWO_64
  {
    assert Pow256(1) == 256;
    assert Pow256(2) == 0x1_0000;
    assert Pow256(3) == 0x100_0000;
    assert Pow256(4) == 0x1_0000_0000;
    assert Pow256(5) == 0x100_0000_0000;
    assert Pow256(6) == 0x1_0000_0000_0000;
    assert Pow256(7) == 0x100_0000_0000_0000;
  }

  lemma {:induction false} LeValue(n: nat, width: nat)
    requires n < Pow256(width)
    ensures Value(Le(n, width)) == n
    decreases width
  {
    if width > 0 {
      assert Le(n, width)[1..] == Le(n / 256, width - 1);
      LeValue(n / 256, width - 1);
    }
  }

  /** The bytes of the number a byte string spells are that byte string. */
  lemma {:induction false} LeOfValue(b: Bytes)
    ensures Le(Value(b), |b|) == b && Value(b) < Pow256(|b|)
    decreases |b|
  {
    if |b| > 0 {
      var tail := b[1..];
      LeOfValue(tail);
      var v: nat := Value(b);
      var low: int := b[0];
      assert v == low + 256 * Value(tail) && v % 256 == low && v / 256 == Value(tail);
      forall i | 0 <= i < |b| ensures Le(v, |b|)[i] == b[i] {
        if i > 0 {
          assert Digit(v, i) == Digit(v / 256, i - 1) == Le(Value(tail), |tail|)[i - 1];
        }
      }
    }
  }

  /** A field read back is the number written, if the number fits the field. */
  lemma LeRoundTrip(s: Bytes, at: nat, n: nat, width: nat)
    requires Holds(s, at, Le(n, width)) && n < Pow256(width)
    ensures ReadLe(s, at, width) == n
  {
    assert s[at..at + width] == Le(n, width);
    LeValue(n, width);
  }

  /** Splits a layout of four parts. */
  lemma HoldsSplit4(whole: Bytes, at: nat, a: Bytes, b: Bytes, c: Bytes, d: Bytes)
    requires Holds(whole, at, a + b + c + d)
    ensures Holds(whole, at, a) && Holds(whole, at + |a|, b)
    ensures Holds(whole, at + |a| + |b|, c) && Holds(whole, at + |a| + |b| + |c|, d)
  {
    HoldsSplit(whole, at, a + b + c, d);
    HoldsSplit(whole, at, a + b, c);
    HoldsSplit(whole, at, a, b);
  }
}
