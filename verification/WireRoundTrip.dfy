/**
  A packet survives its frame, up to the order and repetition of its endpoints, and the frame has the
  announced size.
 */
module WireRoundTrip {
  import opened Wrappers
  import opened LittleEndian
  import opened CanonicalLists
  import opened EndpointBitmap
  import opened WireFrame
  import opened WireAgreement
  import Uleb128

  /** Packets the program can build: 64-bit lengths and times, known codes, text sender, suitable payload. */
  ghost predicate GoodPacket(sch: Schema, p: Packet)
  {
    && sch.isType(p.ty) && sch.utf8(p.sender) && sch.payloadOk(p.ty, p.payload)
    && |p.payload| < TWO_64 && |p.sender| < TWO_64 && p.timestamp < TWO_64
    && |p.endpoints| > 0 && (forall i :: 0 <= i < |p.endpoints| ==> sch.isEndpoint(p.endpoints[i]))
  }

  predicate GoodHeader(h: Header)
  {
    h.number < TWO_32 && h.ack < TWO_32 && h.flags % 2 == 0
  }

  /** A header exactly for the reliable types. */
  predicate HeaderFor(sch: Schema, p: Packet, h: Option<Header>)
  {
    (h.Some? <==> sch.isReliable(p.ty)) && (h.Some? ==> GoodHeader(h.value))
  }

  /** The packet with its endpoints as the bitmap gives them back. */
  function Canonical(p: Packet): Packet
  {
    p.(endpoints := SortNats(p.endpoints))
  }

  lemma {:induction false} HoldsAll(data: Bytes)
    ensures Holds(data, 0, data)
  {
  }

  lemma {:induction false} HoldsSlice(data: Bytes, at: nat, part: Bytes)
    requires Holds(data, at, part)
    ensures at + |part| <= |data| && data[at..at + |part|] == part
  {
  }

  lemma {:induction false} SealedVerifies(sch: Schema, data: Bytes)
    requires ValidSchema(sch)
    ensures Verified(sch, Sealed(sch, data)) == Ok(data) && |Sealed(sch, data)| == |data| + CRC_BYTES
  {
    hide Le, ReadLe, Holds, Pow256;
    var buf, crc := Sealed(sch, data), Le(sch.crc(data), 4);
    HoldsAll(buf);
    HoldsSplit(buf, 0, data, crc);
    Widths();
    LeRoundTrip(buf, |data|, sch.crc(data), 4);
    assert buf[..|buf| - 4] == data;
  }

  /** The head that `HeadBytes` spells. */
  function HeadOf(sch: Schema, p: Packet): Head
  {
    var (packed, sender) := Packed(sch, p.sender);
    Head(Packed(sch, p.payload).0, packed, Popcount(Build(p.endpoints, sch.bits)), p.ty, |p.payload|, p.timestamp,
        |p.sender|,
         if packed then |sender| else |p.sender|, HeadSize(sch, p))
  }

  lemma {:induction false} FlagBits(payloadPacked: bool, senderPacked: bool)
    ensures FlagByte(payloadPacked, senderPacked) % 2 == 1 <==> payloadPacked
    ensures FlagByte(payloadPacked, senderPacked) / 2 % 2 == 1 <==> senderPacked
  {
  }

  /** The four integers every head has, one behind the other. */
  lemma {:induction false} FourVarints(data: Bytes, first: Bytes, a: nat, b: nat, c: nat, d: nat, last: Bytes)
    requires a < TWO_64 && b < TWO_64 && c < TWO_64 && d < TWO_64 && |first| == 2
    requires
      Holds(data, 0, first + Uleb128.Encode(a) + Uleb128.Encode(b) + Uleb128.Encode(c) + Uleb128.Encode(d) + last)
    ensures Holds(data, 0, first)
    ensures var a1 := 2 + Uleb128.Size(a);
            var b1 := a1 + Uleb128.Size(b);
            var c1 := b1 + Uleb128.Size(c);
            var d1 := c1 + Uleb128.Size(d);
            && Uleb128.Decode(data, 2) == Uleb128.Read(a, a1) && Uleb128.Decode(data, a1) == Uleb128.Read(b, b1)
            && Uleb128.Decode(data, b1) == Uleb128.Read(c, c1) && Uleb128.Decode(data, c1) == Uleb128.Read(d, d1)
            && Holds(data, d1, last)
  {
    hide Uleb128.Encode, Uleb128.Decode, Uleb128.Size, Holds;
    var ea, eb, ec, ed := Uleb128.Encode(a), Uleb128.Encode(b), Uleb128.Encode(c), Uleb128.Encode(d);
    HoldsSplit(data, 0, first + ea + eb + ec + ed, last);
    HoldsSplit(data, 0, first + ea + eb + ec, ed);
    HoldsSplit(data, 0, first + ea + eb, ec);
    HoldsSplit(data, 0, first + ea, eb);
    HoldsSplit(data, 0, first, ea);
    Uleb128.RoundTrip(data, 2, a);
    Uleb128.RoundTrip(data, 2 + |ea|, b);
    Uleb128.RoundTrip(data, 2 + |ea| + |eb|, c);
    Uleb128.RoundTrip(data, 2 + |ea| + |eb| + |ec|, d);
  }

  lemma {:induction false} PackedSmaller(sch: Schema, x: Bytes)
    ensures |Packed(sch, x).1| <= |x| && (!Packed(sch, x).0 ==> Packed(sch, x).1 == x)
  {
  }

  /** The sender's wire length is read where it was written, or is its length. */
  lemma {:induction false} WireLengthRoundTrip(sch: Schema, p: Packet, data: Bytes, at: nat)
    requires |p.sender| < TWO_64 && Holds(data, at, WireLength(sch, p.sender)) && Packed(sch, p.sender).0
    ensures Uleb128.Decode(data, at)
            == Uleb128.Read(|Packed(sch, p.sender).1|, at + Uleb128.Size(|Packed(sch, p.sender).1|))
  {
    hide Holds, Packed, Uleb128.Encode, Uleb128.Decode, Uleb128.Size;
    PackedSmaller(sch, p.sender);
    Uleb128.RoundTrip(data, at, |Packed(sch, p.sender).1|);
  }

  lemma {:induction false} FirstBytes(data: Bytes, first: Bytes)
    requires Holds(data, 0, first) && |first| == 2
    ensures |data| >= 2 && data[0] == first[0] && data[1] == first[1]
  {
    assert data[0 + 0] == first[0] && data[0 + 1] == first[1];
  }

  /** The head that five reads in a row make up. */
  lemma {:induction false} HeadParses(data: Bytes, head: Head, a: nat, b: nat, c: nat, d: nat)
    requires |data| >= 2 && 2 < d <= |data| && a <= |data| && b <= |data| && c <= |data|
    requires head.payloadPacked == (data[0] % 2 == 1) && head.senderPacked == (data[0] / 2 % 2 == 1)
             && head.count == data[1]
    requires Uleb128.Decode(data, 2) == Uleb128.Read(head.ty, a)
             && Uleb128.Decode(data, a) == Uleb128.Read(head.size, b)
    requires Uleb128.Decode(data, b) == Uleb128.Read(head.timestamp, c)
    requires Uleb128.Decode(data, c) == Uleb128.Read(head.senderLen, d)
    requires if head.senderPacked then Uleb128.Decode(data, d) == Uleb128.Read(head.wireLen, head.off)
             else head.wireLen == head.senderLen && head.off == d
    ensures ParseHead(data) == Ok(head)
  {
    hide Uleb128.Decode;
  }

  /** The flag byte, the count and the four integers of a packet's head, read back. */
  lemma {:induction false} HeadVarints(sch: Schema, p: Packet, data: Bytes)
    requires p.ty < TWO_64 && |p.payload| < TWO_64 && p.timestamp < TWO_64 && |p.sender| < TWO_64
    requires Popcount(Build(p.endpoints, sch.bits)) < 256 && Holds(data, 0, HeadBytes(sch, p))
    ensures |data| >= 2 && data[1] == Popcount(Build(p.endpoints, sch.bits))
    ensures data[0] % 2 == 1 <==> Packed(sch, p.payload).0
    ensures data[0] / 2 % 2 == 1 <==> Packed(sch, p.sender).0
    ensures var a := 2 + Uleb128.Size(p.ty);
            var b := a + Uleb128.Size(|p.payload|);
            var c := b + Uleb128.Size(p.timestamp);
            var d := c + Uleb128.Size(|p.sender|);
            && Uleb128.Decode(data, 2) == Uleb128.Read(p.ty, a)
               && Uleb128.Decode(data, a) == Uleb128.Read(|p.payload|, b)
            && Uleb128.Decode(data, b) == Uleb128.Read(p.timestamp, c)
            && Uleb128.Decode(data, c) == Uleb128.Read(|p.sender|, d) && Holds(data, d, WireLength(sch, p.sender))
  {
    hide Uleb128.Encode, Uleb128.Decode, Uleb128.Size, Holds, FlagByte, Packed, Popcount, Build, WireLength;
    var first: Bytes :=
      [FlagByte(Packed(sch, p.payload).0, Packed(sch, p.sender).0), Popcount(Build(p.endpoints, sch.bits))];
    FlagBits(Packed(sch, p.payload).0, Packed(sch, p.sender).0);
    FourVarints(data, first, p.ty, |p.payload|, p.timestamp, |p.sender|, WireLength(sch, p.sender));
    FirstBytes(data, first);
  }

  lemma {:induction false} HeadFields(sch: Schema, p: Packet)
    ensures var head := HeadOf(sch, p);
            && head.ty == p.ty && head.size == |p.payload| && head.timestamp == p.timestamp
               && head.senderLen == |p.sender|
            && head.payloadPacked == Packed(sch, p.payload).0 && head.senderPacked == Packed(sch, p.sender).0
            && head.count == Popcount(Build(p.endpoints, sch.bits)) && head.off == HeadSize(sch, p)
            && head.wireLen == if Packed(sch, p.sender).0 then |Packed(sch, p.sender).1| else |p.sender|
  {
  }

  lemma {:induction false} HeadRoundTrip(sch: Schema, p: Packet, data: Bytes)
    requires p.ty < TWO_64 && |p.payload| < TWO_64 && p.timestamp < TWO_64 && |p.sender| < TWO_64
    requires Popcount(Build(p.endpoints, sch.bits)) < 256 && Holds(data, 0, HeadBytes(sch, p))
    ensures ParseHead(data) == Ok(HeadOf(sch, p))
  {
    hide Uleb128.Encode, Uleb128.Decode, Uleb128.Size, Holds, Packed, Popcount, Build, WireLength, ParseHead,
      HeadBytes, HeadOf;
    HeadVarints(sch, p, data);
    var a := 2 + Uleb128.Size(p.ty);
    var b := a + Uleb128.Size(|p.payload|);
    var c := b + Uleb128.Size(p.timestamp);
    var d := c + Uleb128.Size(|p.sender|);
    var head := HeadOf(sch, p);
    HeadFields(sch, p);
    if Packed(sch, p.sender).0 {
      WireLengthRoundTrip(sch, p, data, d);
    }
    HeadParses(data, head, a, b, c, d);
  }

  lemma {:induction false} TypesFit(sch: Schema, p: Packet)
    requires ValidSchema(sch) && GoodPacket(sch, p)
    ensures p.ty < TWO_32 && |p.payload| < TWO_64 && |p.sender| < TWO_64 && p.timestamp < TWO_64
  {
  }

  lemma {:induction false} HeadLength(sch: Schema, p: Packet)
    requires Popcount(Build(p.endpoints, sch.bits)) < 256
    ensures |HeadBytes(sch, p)| == HeadSize(sch, p)
  {
    hide Uleb128.Encode, Uleb128.Size, FlagByte, Packed, Popcount, Build;
    Uleb128.EncodeLength(p.ty);
    Uleb128.EncodeLength(|p.payload|);
    Uleb128.EncodeLength(p.timestamp);
    Uleb128.EncodeLength(|p.sender|);
    Uleb128.EncodeLength(|Packed(sch, p.sender).1|);
  }

  /** Where the parts of a body lie. */
  lemma {:induction false} BodyParts(sch: Schema, p: Packet, h: Option<Header>)
    requires Popcount(Build(p.endpoints, sch.bits)) < 256
    ensures var data := Body(sch, p, h);
            var off := HeadSize(sch, p);
            var bm, sender, part, payload :=
              Build(p.endpoints, sch.bits), Packed(sch, p.sender).1, HeaderPart(h), Packed(sch, p.payload).1;
            && Holds(data, 0, HeadBytes(sch, p)) && Holds(data, off, bm) && Holds(data, off + |bm|, sender)
            && Holds(data, off + |bm| + |sender|, part) && Holds(data, off + |bm| + |sender| + |part|, payload)
            && |data| == off + |bm| + |sender| + |part| + |payload|
  {
    hide HeadBytes, Build, Packed, HeaderPart, Holds, Popcount, HeadSize;
    var data := Body(sch, p, h);
    var head, bm, sender, part, payload :=
      HeadBytes(sch, p), Build(p.endpoints, sch.bits), Packed(sch, p.sender).1, HeaderPart(h), Packed(sch, p.payload).1;
    HeadLength(sch, p);
    HoldsAll(data);
    HoldsSplit(data, 0, head + bm + sender + part, payload);
    HoldsSplit(data, 0, head + bm + sender, part);
    HoldsSplit(data, 0, head + bm, sender);
    HoldsSplit(data, 0, head, bm);
  }

  lemma {:induction false} EndpointsRoundTrip(sch: Schema, p: Packet, data: Bytes, head: Head)
    requires ValidSchema(sch) && GoodPacket(sch, p)
    requires Holds(data, head.off, Build(p.endpoints, sch.bits)) && head.count == Popcount(Build(p.endpoints, sch.bits))
    ensures SenderAt(sch, head) <= |data| && EndpointsIn(sch, data, head) == Ok(SortNats(p.endpoints))
  {
    hide Build, Popcount, Expand, Holds;
    var bm := Build(p.endpoints, sch.bits);
    HoldsSlice(data, head.off, bm);
    ExpandAfterBuild(sch.isEndpoint, p.endpoints, sch.bits);
    PopcountAfterBuild(sch.isEndpoint, p.endpoints, sch.bits);
  }

  lemma {:induction false} SenderRoundTrip(sch: Schema, p: Packet, data: Bytes, head: Head)
    requires ValidSchema(sch) && GoodPacket(sch, p)
    requires head.senderPacked == Packed(sch, p.sender).0 && head.senderLen == |p.sender|
    requires head.wireLen == |Packed(sch, p.sender).1| && Holds(data, SenderAt(sch, head), Packed(sch, p.sender).1)
    ensures AfterSender(sch, head) <= |data| && SenderIn(sch, data, head) == Ok(p.sender)
  {
    hide Holds;
    HoldsSlice(data, SenderAt(sch, head), Packed(sch, p.sender).1);
  }

  lemma {:induction false} HeaderRoundTrip(data: Bytes, off: nat, h: Header)
    requires Holds(data, off, HeaderBytes(h)) && h.number < TWO_32 && h.ack < TWO_32
    ensures off + HEADER_BYTES <= |data| && HeaderAt(data, off) == h
  {
    hide Holds, Le, ReadLe, Pow256;
    var flags: Bytes := [h.flags];
    HoldsSplit(data, off, flags + Le(h.number, 4), Le(h.ack, 4));
    HoldsSplit(data, off, flags, Le(h.number, 4));
    assert data[off + 0] == flags[0];
    Widths();
    LeRoundTrip(data, off + 1, h.number, 4);
    LeRoundTrip(data, off + 5, h.ack, 4);
  }

  lemma {:induction false} PayloadRoundTrip(sch: Schema, p: Packet, data: Bytes, head: Head, at: nat)
    requires ValidSchema(sch) && head.payloadPacked == Packed(sch, p.payload).0 && head.size == |p.payload|
    requires Holds(data, at, Packed(sch, p.payload).1) && |data| == at + |Packed(sch, p.payload).1|
    ensures at + (if head.payloadPacked then 1 else head.size) <= |data|
    ensures PayloadIn(sch, data, head, at) == Ok(p.payload)
  {
    hide Holds;
    HoldsSlice(data, at, Packed(sch, p.payload).1);
    assert data[at..|data|] == data[at..];
  }

  /** Every step of decoding a body succeeds with the part that was written. */
  lemma {:induction false} BodyDecodes(sch: Schema, p: Packet, h: Option<Header>)
    requires ValidSchema(sch) && GoodPacket(sch, p) && HeaderFor(sch, p, h)
    requires Popcount(Build(p.endpoints, sch.bits)) < 256
    ensures var data, head := Body(sch, p, h), HeadOf(sch, p);
            Decoded(sch, data, head, Canonical(p)) && HeaderIn(sch, data, head) == h
  {
    hide ParseHead, EndpointsIn, SenderIn, PayloadIn, HeaderAt, Body, Packed, Build, Popcount, HeadBytes,
      HeadSize, Holds, HeaderBytes, SortNats, ValidSchema;
    var data, head := Body(sch, p, h), HeadOf(sch, p);
    var off := AfterSender(sch, head);
    TypesFit(sch, p);
    PackedSmaller(sch, p.sender);
    BodyParts(sch, p, h);
    HeadRoundTrip(sch, p, data);
    EndpointsRoundTrip(sch, p, data, head);
    SenderRoundTrip(sch, p, data, head);
    if h.Some? {
      HeaderRoundTrip(data, off, h.value);
    }
    PayloadRoundTrip(sch, p, data, head, if h.Some? then off + HEADER_BYTES else off);
    CanonicalNonEmpty(p);
  }

  lemma {:induction false} BodyRoundTrip(sch: Schema, p: Packet, h: Option<Header>)
    requires ValidSchema(sch) && GoodPacket(sch, p) && HeaderFor(sch, p, h)
    requires Popcount(Build(p.endpoints, sch.bits)) < 256
    ensures DecodeData(sch, Body(sch, p, h)) == Ok(Canonical(p))
    ensures FrameInfoOfData(sch, Body(sch, p, h)).Ok? && FrameInfoOfData(sch, Body(sch, p, h)).value.header == h
  {
    hide Body, DecodeData, FrameInfoOfData, Decoded, HeadOf, ValidSchema, GoodPacket, HeaderFor, Canonical, Popcount,
      Build;
    var data, head := Body(sch, p, h), HeadOf(sch, p);
    BodyDecodes(sch, p, h);
    StepsDecode(sch, data, head, Canonical(p));
    EnvelopeAgrees(sch, data, head, Canonical(p));
  }

  lemma {:induction false} CanonicalNonEmpty(p: Packet)
    ensures |p.endpoints| > 0 ==> |SortNats(p.endpoints)| > 0
  {
    if |p.endpoints| > 0 {
      SortDedupElement(NatLess, p.endpoints, p.endpoints[0]);
    }
  }

  /** A frame exists exactly for at most 255 distinct endpoints. */
  lemma {:induction false} EncodesExactly(sch: Schema, p: Packet, h: Option<Header>)
    requires ValidSchema(sch) && GoodPacket(sch, p)
    ensures EncodeWith(sch, p, h).Some? <==> |SortNats(p.endpoints)| < 256
  {
    PopcountAfterBuild(sch.isEndpoint, p.endpoints, sch.bits);
  }

  /** Decoding a frame gives the packet back with its endpoints sorted and without repetitions. */
  lemma {:induction false} PacketRoundTrip(sch: Schema, p: Packet, h: Option<Header>)
    requires ValidSchema(sch) && GoodPacket(sch, p) && HeaderFor(sch, p, h) && |SortNats(p.endpoints)| < 256
    ensures EncodeWith(sch, p, h).Some?
    ensures var buf := EncodeWith(sch, p, h).value;
            && Decode(sch, buf) == Ok(Canonical(p))
            && PeekFrameInfo(sch, buf).Ok? && PeekFrameInfo(sch, buf).value.header == h
  {
    hide Body, Sealed, Verified, DecodeData, FrameInfoOfData, Build, Popcount, Canonical;
    EncodesExactly(sch, p, h);
    SealedVerifies(sch, Body(sch, p, h));
    BodyRoundTrip(sch, p, h);
  }

  /** The plain encoder is the round trip with its default header. */
  lemma {:induction false} PlainRoundTrip(sch: Schema, p: Packet)
    requires ValidSchema(sch) && GoodPacket(sch, p) && |SortNats(p.endpoints)| < 256
    ensures Encode(sch, p).Some? && Decode(sch, Encode(sch, p).value) == Ok(Canonical(p))
    ensures |Encode(sch, p).value| == WireSize(sch, p)
  {
    hide EncodeWith, Decode, WireSize, Canonical;
    var h := if sch.isReliable(p.ty) then Some(Header(UNSEQUENCED, 0, 0)) else None;
    PacketRoundTrip(sch, p, h);
    SizeIsExact(sch, p, h);
  }

  /** The precomputed size is the length of the frame. */
  lemma {:induction false} SizeIsExact(sch: Schema, p: Packet, h: Option<Header>)
    requires EncodeWith(sch, p, h).Some? && (h.Some? <==> sch.isReliable(p.ty))
    ensures |EncodeWith(sch, p, h).value| == WireSize(sch, p)
  {
    hide HeadBytes, Build, Packed, Popcount, HeadSize, HeaderBytes;
    HeadLength(sch, p);
  }

  /**
    So the ID computed from the wire is the sender's own ID whenever its endpoint list was already
    canonical; otherwise it is the ID of the canonical packet.
   */
  lemma {:induction false} WireIdIsCanonicalId(sch: Schema, p: Packet, h: Option<Header>)
    requires ValidSchema(sch) && GoodPacket(sch, p) && HeaderFor(sch, p, h) && |SortNats(p.endpoints)| < 256
    ensures EncodeWith(sch, p, h).Some?
    ensures PacketIdFromWire(sch, EncodeWith(sch, p, h).value) == Ok(PacketId(sch, Canonical(p)))
    ensures Ascending(NatLess, p.endpoints) ==> Canonical(p) == p
  {
    hide EncodeWith, PacketIdFromWire, PacketId, Decode, PeekFrameInfo, PeekEnvelope, ValidSchema;
    PacketRoundTrip(sch, p, h);
    ParsersAgree(sch, EncodeWith(sch, p, h).value);
    if Ascending(NatLess, p.endpoints) {
      NatOrder();
      SortDedupIdempotent(NatLess, p.endpoints);
    }
  }
}
