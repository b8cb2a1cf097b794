/** Unsigned LEB128 integers of 64 bits (section 7.6 of DWARF version 5). */
module Uleb128 {
  import opened LittleEndian

  /** A value read and the offset behind it, or the reason there is none. */
  datatype Read = Read(value: nat, next: nat) | Short | TooLong

  /** Seven bits a byte, least significant first; the high bit says that more follow. */
  function Encode(v: nat): (r: Bytes)
    ensures |r| >= 1
  {
    if v < 128 then [v] else [v % 128 + 128] + Encode(v / 128)
  }

  /** At most `left` more bytes from `at`; the value is not yet cut to 64 bits. */
  function DecodeWide(s: Bytes, at: nat, left: nat): (r: Read)
    ensures r.Read? ==> at < r.next <= |s| && r.next <= at + left
    decreases left
  {
    if left == 0 then TooLong
    else if at >= |s| then Short
    else if s[at] < 128 then Read(s[at], at + 1)
    else match DecodeWide(s, at + 1, left - 1)
      case Read(v, next) => Read(s[at] - 128 + 128 * v, next)
      case Short => Short
      case TooLong => TooLong
  }

  /** Ten bytes at most; bits beyond the 64th are lost. */
  function Decode(s: Bytes, at: nat): (r: Read)
    ensures r.Read? ==> at < r.next <= |s| && r.next <= at + 10 && r.value < TWO_64
  {
    match DecodeWide(s, at, 10)
    case Read(v, next) => Read(v % TWO_64, next)
    case Short => Short
    case TooLong => TooLong
  }

  function Size(v: nat): (n: nat)
    ensures n >= 1
  {
    if v < 128 then 1 else 1 + Size(v / 128)
  }

  function Pow128(n: nat): (r: nat)
    ensures r >= 1
  {
    if n == 0 then 1 else 128 * Pow128(n - 1)
  }

  lemma {:induction false} EncodeLength(v: nat)
    ensures |Encode(v)| == Size(v)
  {
    if v >= 128 {
      EncodeLength(v / 128);
    }
  }

  lemma {:induction false} EncodedParts(v: nat)
    ensures v < 128 ==> Encode(v) == [v]
    ensures v >= 128 ==> Encode(v)[0] == v % 128 + 128 && Encode(v)[1..] == Encode(v / 128)
  {
  }

  lemma {:induction false} NextPower(i: nat)
    ensures Pow128(0) == 1 && Pow128(i + 1) == 128 * Pow128(i)
  {
  }

  /**
    Byte `i` of an encoding carries the digit of weight 128 to the power of `i`, and its high bit says whether it
    is followed by another.
   */
  lemma {:induction false} EncodedByte(v: nat, i: nat) returns (q: nat, r: nat)
    requires i < |Encode(v)|
    ensures v == (q * 128 + Encode(v)[i] % 128) * Pow128(i) + r && r < Pow128(i)
    ensures Encode(v)[i] >= 128 <==> i + 1 < |Encode(v)|
    ensures i + 1 == |Encode(v)| ==> q == 0
    decreases i
  {
    hide Encode, Pow128;
    EncodedParts(v);
    if i == 0 {
      NextPower(0);
      q, r := v / 128, 0;
    } else {
      var s: nat;
      q, s := EncodedByte(v / 128, i - 1);
      r := 128 * s + v % 128;
      NextPower(i - 1);
      assert Encode(v)[i] == Encode(v)[1..][i - 1] == Encode(v / 128)[i - 1];
      Reweighed(v, q * 128 + Encode(v / 128)[i - 1] % 128, Pow128(i - 1), s);
    }
  }

  lemma {:induction false} Reweighed(v: nat, x: nat, p: nat, s: nat)
    requires v / 128 == x * p + s && s < p
    ensures v == x * (128 * p) + (128 * s + v % 128) && 128 * s + v % 128 < 128 * p
  {
    assert x * (128 * p) == 128 * (x * p);
  }

  /** `n` bytes suffice exactly for numbers of up to `7 * n` bits. */
  lemma {:induction false} SizeMeaning(v: nat, n: nat)
    requires n >= 1
    ensures Size(v) <= n <==> v < Pow128(n)
    decreases n
  {
    if n == 1 {
      assert Pow128(1) == 128;
    } else if v >= 128 {
      SizeMeaning(v / 128, n - 1);
    }
  }

  lemma {:induction false} TenBytes()
    ensures Pow128(9) < TWO_64 <= Pow128(10)
  {
    assert Pow128(3) == 0x20_0000;
    assert Pow128(6) == 0x20_0000 * 0x20_0000;
    assert Pow128(9) == 0x20_0000 * 0x20_0000 * 0x20_0000;
  }

  lemma {:induction false} WideRoundTrip(s: Bytes, at: nat, v: nat, left: nat)
    requires Holds(s, at, Encode(v)) && Size(v) <= left
    ensures DecodeWide(s, at, left) == Read(v, at + Size(v))
    decreases v
  {
    if v < 128 {
      assert s[at + 0] == [v][0];
    } else {
      HoldsSplit(s, at, [v % 128 + 128], Encode(v / 128));
      assert s[at + 0] == [v % 128 + 128][0];
      WideRoundTrip(s, at + 1, v / 128, left - 1);
    }
  }

  /** The number that a string of seven-bit digits spells, least significant first. */
  function Spelled(b: Bytes): nat
  {
    if |b| == 0 then 0
    else
      var low: int := b[0];
      low % 128 + 128 * Spelled(b[1..])
  }

  /** `n` bytes from `at` are one number: all but the last say that another follows. */
  ghost predicate OneNumber(s: Bytes, at: nat, n: nat)
  {
    n >= 1 && at + n <= |s| && s[at + n - 1] < 128 && forall i :: at <= i < at + n - 1 ==> s[i] >= 128
  }

  lemma {:induction false} WideNumber(s: Bytes, at: nat, left: nat, n: nat)
    requires OneNumber(s, at, n) && n <= left
    ensures DecodeWide(s, at, left) == Read(Spelled(s[at..at + n]), at + n)
    decreases left
  {
    if n > 1 {
      WideNumber(s, at + 1, left - 1, n - 1);
      assert s[at..at + n][1..] == s[at + 1..at + n];
    } else {
      assert s[at..at + 1] == [s[at]] && [s[at]][1..] == [];
    }
  }

  lemma {:induction false} WideIsNumber(s: Bytes, at: nat, left: nat)
    requires DecodeWide(s, at, left).Read?
    ensures OneNumber(s, at, DecodeWide(s, at, left).next - at)
    decreases left
  {
    if s[at] >= 128 {
      WideIsNumber(s, at + 1, left - 1);
    }
  }

  lemma {:induction false} WideTooLong(s: Bytes, at: nat, left: nat)
    requires at <= |s|
    ensures DecodeWide(s, at, left).TooLong? <==> at + left <= |s| && forall i :: at <= i < at + left ==> s[i] >= 128
    decreases left
  {
    if left > 0 && at < |s| && s[at] >= 128 {
      WideTooLong(s, at + 1, left - 1);
    }
  }

  /**
    All that reading can end in. One to ten bytes that are one number are read as what they spell, without what is
    beyond 64 bits; ten bytes that each promise another are too long; and otherwise the input is too short.
   */
  lemma {:induction false} DecodeExactly(s: Bytes, at: nat, n: nat)
    ensures OneNumber(s, at, n) && n <= 10 ==> Decode(s, at) == Read(Spelled(s[at..at + n]) % TWO_64, at + n)
    ensures Decode(s, at).Read? ==> OneNumber(s, at, Decode(s, at).next - at)
    ensures Decode(s, at).TooLong? <==> at + 10 <= |s| && forall i :: at <= i < at + 10 ==> s[i] >= 128
  {
    hide Spelled, OneNumber;
    if OneNumber(s, at, n) && n <= 10 {
      WideNumber(s, at, 10, n);
    }
    if Decode(s, at).Read? {
      WideIsNumber(s, at, 10);
    }
    if at <= |s| {
      WideTooLong(s, at, 10);
    }
  }

  /** What was written is read back, and exactly its bytes are consumed. */
  lemma {:induction false} RoundTrip(s: Bytes, at: nat, v: nat)
    requires Holds(s, at, Encode(v)) && v < TWO_64
    ensures Decode(s, at) == Read(v, at + Size(v)) && |Encode(v)| == Size(v) <= 10
  {
    hide Encode, Holds, Pow128;
    TenBytes();
    SizeMeaning(v, 10);
    EncodeLength(v);
    WideRoundTrip(s, at, v, 10);
  }

  lemma {:induction false} WideIsLonger(s: Bytes, at: nat, left: nat)
    requires DecodeWide(s, at, left).Read?
    ensures Size(DecodeWide(s, at, left).value) <= DecodeWide(s, at, left).next - at
    decreases left
  {
    if s[at] >= 128 {
      WideIsLonger(s, at + 1, left - 1);
      var v := DecodeWide(s, at + 1, left - 1).value;
      assert (s[at] - 128 + 128 * v) / 128 == v;
    }
  }

  lemma {:induction false} SizeGrows(v: nat, w: nat)
    requires v <= w
    ensures Size(v) <= Size(w)
    decreases w
  {
    if v >= 128 {
      SizeGrows(v / 128, w / 128);
    }
  }

  /** Nothing that decodes to a value is shorter than its encoding; padded forms are accepted. */
  lemma {:induction false} EncodingIsShortest(s: Bytes, at: nat)
    requires Decode(s, at).Read?
    ensures Size(Decode(s, at).value) <= Decode(s, at).next - at
  {
    WideIsLonger(s, at, 10);
    var v := DecodeWide(s, at, 10).value;
    SizeGrows(v % TWO_64, v);
  }

  lemma {:induction false} PaddedZero()
    ensures Decode([0x80, 0x80, 0], 0) == Read(0, 3) && Encode(0) == [0]
  {
    var s: Bytes := [0x80, 0x80, 0];
    assert DecodeWide(s, 2, 8) == Read(0, 3);
    assert DecodeWide(s, 1, 9) == Read(0, 3);
  }

  /** A value depends only on the bytes it was read from. */
  lemma {:induction false} DecodeWideLocal(s: Bytes, t: Bytes, at: nat, left: nat, n: nat)
    requires |s| == |t| && (forall i :: 0 <= i < n && i < |s| ==> s[i] == t[i])
    requires DecodeWide(s, at, left).Read? && DecodeWide(s, at, left).next <= n
    ensures DecodeWide(t, at, left) == DecodeWide(s, at, left)
    decreases left
  {
    if s[at] >= 128 {
      DecodeWideLocal(s, t, at + 1, left - 1, n);
    }
  }

  lemma {:induction false} DecodeLocal(s: Bytes, t: Bytes, at: nat, n: nat)
    requires |s| == |t| && (forall i :: 0 <= i < n && i < |s| ==> s[i] == t[i])
    requires Decode(s, at).Read? && Decode(s, at).next <= n
    ensures Decode(t, at) == Decode(s, at)
  {
    DecodeWideLocal(s, t, at, 10, n);
  }

  // -------------------------------------------------------------------------
  // The loops
  // -------------------------------------------------------------------------

  method WriteUleb128(v: nat, out: Bytes) returns (r: Bytes)
    requires v < TWO_64
    ensures r == out + Encode(v)
  {
    var rest: nat := v;
    r := out;
    var more := true;
    while more
      invariant more ==> r + Encode(rest) == out + Encode(v)
      invariant !more ==> rest == 0 && r == out + Encode(v)
      decreases more, rest
    {
      var low: Byte := rest % 128;
      var byte: Byte := if rest / 128 != 0 then low + 128 else low;
      assert Encode(rest) == if rest < 128 then [byte] else [byte] + Encode(rest / 128);
      assert r + ([byte] + Encode(rest / 128)) == (r + [byte]) + Encode(rest / 128);
      r := r + [byte];
      rest := rest / 128;
      more := rest != 0;
    }
  }

  /** With `result` gathered so far and the next group worth `scale`, reading `rest` completes `whole`. */
  ghost predicate Completes(whole: Read, rest: Read, result: nat, scale: nat)
  {
    match rest
    case Read(v, next) => whole == Read(result + scale * v, next)
    case Short => whole.Short?
    case TooLong => whole.TooLong?
  }

  lemma {:induction false} CompletesNext(whole: Read, s: Bytes, off: nat, left: nat, result: nat, scale: nat)
    requires left > 0 && off < |s| && s[off] >= 128
    requires Completes(whole, DecodeWide(s, off, left), result, scale)
    ensures Completes(whole, DecodeWide(s, off + 1, left - 1), result + scale * (s[off] - 128), 128 * scale)
  {
    if DecodeWide(s, off + 1, left - 1).Read? {
      var v, group := DecodeWide(s, off + 1, left - 1).value, s[off] - 128;
      assert scale * (group + 128 * v) == scale * group + 128 * scale * v;
    }
  }

  /** Accumulates seven bits at a time; adding a shifted group is or-ing it, since the groups do not overlap. */
  method ReadUleb128(s: Bytes, at: nat) returns (r: Read)
    ensures r == Decode(s, at)
  {
    var result: nat, scale: nat, off: nat := 0, 1, at;
    ghost var whole := DecodeWide(s, at, 10);
    var left: nat := 10;
    while left > 0
      invariant Completes(whole, DecodeWide(s, off, left), result, scale)
    {
      if off >= |s| {
        return Short;
      }
      var byte: nat := s[off];
      if byte < 128 {
        return Read((result + scale * byte) % TWO_64, off + 1);
      }
      CompletesNext(whole, s, off, left, result, scale);
      result, scale, off, left := result + scale * (byte - 128), 128 * scale, off + 1, left - 1;
    }
    r := TooLong;
  }

  method Uleb128Size(v: nat) returns (n: nat)
    requires v < TWO_64
    ensures n == Size(v)
  {
    var rest: nat := v;
    n := 1;
    while rest >= 128
      invariant n >= 1 && n - 1 + Size(rest) == Size(v)
    {
      rest := rest / 128;
      n := n + 1;
    }
  }
}
