/** Where everything stands in a frame, byte by byte. */
module WireLayout {
  import opened Wrappers
  import opened LittleEndian
  import opened CanonicalLists
  import opened EndpointBitmap
  import opened WireFrame
  import Uleb128

  /** Compression is used: the field is long enough to try it, it works, and it saves at least two bytes. */
  predicate Shrinks(sch: Schema, x: Bytes)
  {
    |x| >= sch.threshold && sch.compress(x).Some? && |sch.compress(x).value| + 1 < |x|
  }

  /** The bytes of a field as they are sent. */
  function OnWire(sch: Schema, x: Bytes): Bytes
  {
    if Shrinks(sch, x) then sch.compress(x).value else x
  }

  lemma {:induction false} PackedIs(sch: Schema, x: Bytes)
    ensures Packed(sch, x) == (Shrinks(sch, x), OnWire(sch, x))
  {
  }

  /** The reliable header as it is sent: flags, number and acknowledged number. */
  function HeaderOnWire(h: Option<Header>): Bytes
  {
    match h case None => [] case Some(x) => [x.flags] + Le(x.number, 4) + Le(x.ack, 4)
  }

  /** Two flag bits say what is compressed; then comes the number of distinct endpoints. */
  function Preamble(sch: Schema, p: Packet): Bytes
    requires |SortNats(p.endpoints)| < 256
  {
    [(if Shrinks(sch, p.payload) then 1 else 0) + (if Shrinks(sch, p.sender) then 2 else 0), |SortNats(p.endpoints)|]
  }

  /** Type, sizes and time, and the sender's length on the wire only if it is compressed. */
  function Numbers(sch: Schema, p: Packet): Bytes
  {
    Uleb128.Encode(p.ty) + Uleb128.Encode(|p.payload|) + Uleb128.Encode(p.timestamp) + Uleb128.Encode(|p.sender|)
    + if Shrinks(sch, p.sender) then Uleb128.Encode(|sch.compress(p.sender).value|) else []
  }

  /** The whole frame without its checksum. */
  function Layout(sch: Schema, p: Packet, h: Option<Header>): Bytes
    requires |SortNats(p.endpoints)| < 256
  {
    Preamble(sch, p) + Numbers(sch, p) + Build(p.endpoints, sch.bits) + OnWire(sch, p.sender) + HeaderOnWire(h)
    + OnWire(sch, p.payload)
  }

  lemma {:induction false} HeadIs(sch: Schema, p: Packet)
    requires Popcount(Build(p.endpoints, sch.bits)) == |SortNats(p.endpoints)| < 256
    ensures HeadBytes(sch, p) == Preamble(sch, p) + Numbers(sch, p)
  {
    hide Uleb128.Encode, Build, Packed, SortNats, Popcount, Shrinks, OnWire;
    PackedIs(sch, p.sender);
    PackedIs(sch, p.payload);
    ShrunkIs(sch, p.sender);
    var first := Preamble(sch, p);
    var a, b, c, d, e := Uleb128.Encode(p.ty), Uleb128.Encode(|p.payload|), Uleb128.Encode(p.timestamp),
                         Uleb128.Encode(|p.sender|), WireLength(sch, p.sender);
    assert HeadBytes(sch, p) == first + a + b + c + d + e;
    assert Numbers(sch, p) == a + b + c + d + e;
    assert first + a + b + c + d + e == first + (a + b + c + d + e);
  }

  lemma {:induction false} ShrunkIs(sch: Schema, x: Bytes)
    ensures Shrinks(sch, x) ==> sch.compress(x).Some? && OnWire(sch, x) == sch.compress(x).value
  {
  }

  lemma {:induction false} BodyIs(sch: Schema, p: Packet, h: Option<Header>)
    requires Popcount(Build(p.endpoints, sch.bits)) == |SortNats(p.endpoints)| < 256
    ensures Body(sch, p, h) == Layout(sch, p, h)
  {
    hide HeadBytes, Build, Packed, SortNats, Le, Popcount, Preamble, Numbers, OnWire;
    HeadIs(sch, p);
    PackedIs(sch, p.sender);
    PackedIs(sch, p.payload);
    assert HeaderPart(h) == HeaderOnWire(h);
  }

  /** Every frame has this layout, and ends with the checksum of all the rest. */
  lemma {:induction false} FrameLayout(sch: Schema, p: Packet, h: Option<Header>)
    requires EncodeWith(sch, p, h).Some?
    requires forall i :: 0 <= i < |p.endpoints| ==> p.endpoints[i] < sch.bits && sch.isEndpoint(p.endpoints[i])
    ensures |SortNats(p.endpoints)| < 256
    ensures EncodeWith(sch, p, h).value == Layout(sch, p, h) + Le(sch.crc(Layout(sch, p, h)), 4)
  {
    hide Build, SortNats, Le, Popcount, Layout, Body;
    PopcountAfterBuild(sch.isEndpoint, p.endpoints, sch.bits);
    BodyIs(sch, p, h);
  }

  /** The bitmap holds eight endpoints a byte, the lowest in the lowest bit; those selected are the packet's. */
  lemma {:induction false} BitmapLayout(eps: seq<nat>, bits: nat, k: nat, j: nat) returns (q: nat, r: nat)
    requires j < 8 && 8 * k + j < bits
    ensures |Build(eps, bits)| == (bits + 7) / 8 && k < |Build(eps, bits)|
    ensures Build(eps, bits)[k] == (2 * q + if 8 * k + j in eps then 1 else 0) * Pow2(j) + r && r < Pow2(j)
  {
    hide Build, Bit;
    BuildMeaning(eps, bits, 8 * k + j);
    assert (8 * k + j) / 8 == k && (8 * k + j) % 8 == j;
    q, r := BitWeight(Build(eps, bits)[k], j);
  }
}
