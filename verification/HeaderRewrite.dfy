/**
  Hop-by-hop rewriting of the reliable header in a serialized frame: the last header written is the one
  that is read, the packet stays what it was, and the checksum is always made good.
 */
module HeaderRewrite {
  import opened Wrappers
  import opened LittleEndian
  import opened EndpointBitmap
  import opened WireFrame
  import opened WireAgreement
  import opened WireRoundTrip
  import Uleb128

  // -------------------------------------------------------------------------
  // Overwriting part of a byte string
  // -------------------------------------------------------------------------

  ghost predicate AgreeBelow(a: Bytes, b: Bytes, n: nat)
  {
    |a| == |b| && forall i :: 0 <= i < n && i < |a| ==> a[i] == b[i]
  }

  lemma {:induction false} OverwrittenMeaning(buf: Bytes, at: nat, part: Bytes)
    requires at + |part| <= |buf|
    ensures var r := Overwritten(buf, at, part);
            && AgreeBelow(buf, r, at) && Holds(r, at, part) && r[at + |part|..] == buf[at + |part|..]
  {
  }

  /** The last write to a place is the one that counts. */
  lemma {:induction false} OverwrittenTwice(buf: Bytes, at: nat, first: Bytes, second: Bytes)
    requires at + |first| <= |buf| && |first| == |second|
    ensures Overwritten(Overwritten(buf, at, first), at, second) == Overwritten(buf, at, second)
  {
    var once := Overwritten(buf, at, first);
    assert once[..at] == buf[..at] && once[at + |second|..] == buf[at + |first|..];
  }

  /** Writing what is there already changes nothing. */
  lemma {:induction false} OverwrittenSame(buf: Bytes, at: nat, part: Bytes)
    requires at + |part| <= |buf| && buf[at..at + |part|] == part
    ensures Overwritten(buf, at, part) == buf
  {
  }

  // -------------------------------------------------------------------------
  // What a rewrite leaves alone
  // -------------------------------------------------------------------------

  lemma {:induction false} ReadLocal(a: Bytes, b: Bytes, at: nat, n: nat)
    requires AgreeBelow(a, b, n) && Uleb128.Decode(a, at).Read? && Uleb128.Decode(a, at).next <= n
    ensures Uleb128.Decode(b, at) == Uleb128.Decode(a, at)
  {
    hide Uleb128.Decode;
    Uleb128.DecodeLocal(a, b, at, n);
  }

  /** The head depends only on its own bytes. */
  lemma {:induction false} HeadLocal(a: Bytes, b: Bytes, n: nat)
    requires AgreeBelow(a, b, n) && ParseHead(a).Ok? && ParseHead(a).value.off <= n
    ensures ParseHead(b) == ParseHead(a)
  {
    hide Uleb128.Decode;
    assert a[0] == b[0] && a[1] == b[1];
    var ty := Uleb128.Decode(a, 2);
    var size := Uleb128.Decode(a, ty.next);
    var timestamp := Uleb128.Decode(a, size.next);
    var senderLen := Uleb128.Decode(a, timestamp.next);
    HeadNexts(a);
    ReadLocal(a, b, 2, n);
    ReadLocal(a, b, ty.next, n);
    ReadLocal(a, b, size.next, n);
    ReadLocal(a, b, timestamp.next, n);
    if ParseHead(a).value.senderPacked {
      ReadLocal(a, b, senderLen.next, n);
    }
  }

  /** The cursor only moves forward. */
  lemma {:induction false} HeadNexts(a: Bytes)
    requires ParseHead(a).Ok?
    ensures var off := ParseHead(a).value.off;
            var ty := Uleb128.Decode(a, 2);
            && ty.Read? && ty.next <= off
            && var size := Uleb128.Decode(a, ty.next);
               && size.Read? && size.next <= off
               && var timestamp := Uleb128.Decode(a, size.next);
                  && timestamp.Read? && timestamp.next <= off
                  && var senderLen := Uleb128.Decode(a, timestamp.next);
                     senderLen.Read? && senderLen.next <= off
  {
    hide Uleb128.Decode;
  }

  lemma {:induction false} SliceLocal(a: Bytes, b: Bytes, n: nat, lo: nat, hi: nat)
    requires AgreeBelow(a, b, n) && lo <= hi <= n && hi <= |a|
    ensures a[lo..hi] == b[lo..hi]
  {
  }

  lemma {:induction false} FieldsLocal(sch: Schema, a: Bytes, b: Bytes, head: Head)
    requires AgreeBelow(a, b, AfterSender(sch, head)) && AfterSender(sch, head) <= |a|
    ensures EndpointsIn(sch, b, head) == EndpointsIn(sch, a, head) && SenderIn(sch, b, head) == SenderIn(sch, a, head)
  {
    hide AgreeBelow, Expand;
    SameLength(a, b, AfterSender(sch, head));
    SliceLocal(a, b, AfterSender(sch, head), head.off, SenderAt(sch, head));
    SliceLocal(a, b, AfterSender(sch, head), SenderAt(sch, head), AfterSender(sch, head));
  }

  lemma {:induction false} SameLength(a: Bytes, b: Bytes, n: nat)
    requires AgreeBelow(a, b, n)
    ensures |a| == |b|
  {
  }

  lemma {:induction false} PayloadLocal(sch: Schema, a: Bytes, b: Bytes, head: Head, at: nat)
    requires at <= |a| == |b| && a[at..] == b[at..]
    ensures PayloadIn(sch, b, head, at) == PayloadIn(sch, a, head, at)
  {
    if !head.payloadPacked && |a| - at >= head.size {
      assert a[at..at + head.size] == a[at..][..head.size];
      assert b[at..at + head.size] == b[at..][..head.size];
    }
  }

  /** The offset of the header, for a frame whose head and type have been read. */
  lemma {:induction false} OffsetOf(sch: Schema, buf: Bytes)
    requires HeaderOffset(sch, buf).Ok? && HeaderOffset(sch, buf).value.Some?
    ensures |buf| > CRC_BYTES
    ensures var data := buf[..|buf| - CRC_BYTES];
            && ParseHead(data).Ok?
            && var head := ParseHead(data).value;
               && HeaderOffset(sch, buf).value.value == AfterSender(sch, head) <= |data|
               && CheckedType(sch, head.ty) == Ok(head.ty) && sch.isReliable(head.ty)
  {
    hide ParseHead;
  }

  lemma {:induction false} OffsetIs(sch: Schema, buf: Bytes, head: Head)
    requires |buf| > CRC_BYTES && ParseHead(buf[..|buf| - CRC_BYTES]) == Ok(head)
    requires AfterSender(sch, head) <= |buf| - CRC_BYTES && CheckedType(sch, head.ty) == Ok(head.ty)
    ensures HeaderOffset(sch, buf) == Ok(if sch.isReliable(head.ty) then Some(AfterSender(sch, head)) else None)
  {
    hide ParseHead;
  }

  lemma {:induction false} SealedData(sch: Schema, data: Bytes)
    ensures |Sealed(sch, data)| == |data| + CRC_BYTES && Sealed(sch, data)[..|data|] == data
  {
  }

  // -------------------------------------------------------------------------
  // One rewrite
  // -------------------------------------------------------------------------

  /** `out` is what a rewrite of `buf` with `h` produced: the header was at `AfterSender` and lies there now. */
  ghost predicate RewroteTo(sch: Schema, buf: Bytes, h: Header, head: Head, out: Bytes)
  {
    && |buf| > CRC_BYTES
    && var data := buf[..|buf| - CRC_BYTES];
       && ParseHead(data) == Ok(head) && CheckedType(sch, head.ty) == Ok(head.ty) && sch.isReliable(head.ty)
       && AfterSender(sch, head) + HEADER_BYTES <= |data|
       && out == Sealed(sch, Overwritten(data, AfterSender(sch, head), HeaderBytes(h)))
  }

  lemma {:induction false} RewriteSteps(sch: Schema, buf: Bytes, h: Header)
    requires Rewritten(sch, buf, h).Ok? && Rewritten(sch, buf, h).value.0
    ensures |buf| > CRC_BYTES && ParseHead(buf[..|buf| - CRC_BYTES]).Ok?
    ensures RewroteTo(sch, buf, h, ParseHead(buf[..|buf| - CRC_BYTES]).value, Rewritten(sch, buf, h).value.1)
  {
    hide HeaderOffset, ParseHead, Sealed, Overwritten, HeaderBytes;
    OffsetOf(sch, buf);
  }

  lemma {:induction false} StepsRewrite(sch: Schema, buf: Bytes, h: Header, head: Head, out: Bytes)
    requires RewroteTo(sch, buf, h, head, out)
    ensures Rewritten(sch, buf, h) == Ok((true, out))
  {
    hide HeaderOffset, ParseHead, Sealed, Overwritten, HeaderBytes;
    OffsetIs(sch, buf, head);
  }

  /** The data part before and after, and what still holds of it. */
  lemma {:induction false} RewrittenData(sch: Schema, data: Bytes, head: Head, h: Header)
    requires ParseHead(data) == Ok(head) && AfterSender(sch, head) + HEADER_BYTES <= |data|
    requires h.number < TWO_32 && h.ack < TWO_32
    ensures var off := AfterSender(sch, head);
            var out := Overwritten(data, off, HeaderBytes(h));
            && |out| == |data| && ParseHead(out) == Ok(head)
            && EndpointsIn(sch, out, head) == EndpointsIn(sch, data, head)
            && SenderIn(sch, out, head) == SenderIn(sch, data, head)
            && PayloadIn(sch, out, head, off + HEADER_BYTES) == PayloadIn(sch, data, head, off + HEADER_BYTES)
            && HeaderAt(out, off) == h
  {
    hide ParseHead, EndpointsIn, SenderIn, PayloadIn, HeaderAt, HeaderBytes, Overwritten, AgreeBelow, Holds;
    var off := AfterSender(sch, head);
    var out := Overwritten(data, off, HeaderBytes(h));
    OverwrittenMeaning(data, off, HeaderBytes(h));
    AgreeLess(data, out, off, off);
    HeadLocal(data, out, off);
    FieldsLocal(sch, data, out, head);
    PayloadLocal(sch, data, out, head, off + HEADER_BYTES);
    HeaderRoundTrip(out, off, h);
  }

  lemma {:induction false} AgreeLess(a: Bytes, b: Bytes, n: nat, m: nat)
    requires AgreeBelow(a, b, n) && m <= n
    ensures AgreeBelow(a, b, m)
  {
  }

  /**
    A rewrite changes neither length nor packet, and is read back; an ACK-only header turns the frame into a
    control frame.
   */
  lemma {:induction false} DataRewrite(sch: Schema, data: Bytes, head: Head, p: Packet, h: Header)
    requires Decoded(sch, data, head, p) && sch.isReliable(p.ty) && h.number < TWO_32 && h.ack < TWO_32
    ensures var out := Overwritten(data, AfterSender(sch, head), HeaderBytes(h));
            && |out| == |data|
            && (!AckOnly(h) ==> Decoded(sch, out, head, p) && HeaderIn(sch, out, head) == Some(h))
            && (AckOnly(h) ==> DecodeData(sch, out) == Err(ControlFrame))
  {
    hide ParseHead, EndpointsIn, SenderIn, PayloadIn, HeaderAt, HeaderBytes, Overwritten, AckOnly;
    RewrittenData(sch, data, head, h);
  }

  lemma {:induction false} VerifiedParts(sch: Schema, buf: Bytes)
    requires Verified(sch, buf).Ok?
    ensures |buf| >= CRC_BYTES && Verified(sch, buf).value == buf[..|buf| - CRC_BYTES]
    ensures Sealed(sch, buf[..|buf| - CRC_BYTES]) == buf
  {
    var n := |buf| - CRC_BYTES;
    var tail := buf[n..n + CRC_BYTES];
    LeOfValue(tail);
    assert buf == buf[..n] + tail;
  }

  lemma {:induction false} DecodedFits(sch: Schema, data: Bytes, head: Head, p: Packet)
    requires Decoded(sch, data, head, p)
    ensures ParseHead(data) == Ok(head) && CheckedType(sch, head.ty) == Ok(head.ty) && head.ty == p.ty
    ensures AfterSender(sch, head) + (if sch.isReliable(p.ty) then HEADER_BYTES else 0) <= |data|
  {
    hide ParseHead, EndpointsIn, SenderIn, PayloadIn, HeaderAt, AckOnly;
  }

  /** A rewrite of a decodable frame of a reliable type finds the header. */
  lemma {:induction false} RewriteFinds(sch: Schema, buf: Bytes, head: Head, p: Packet, h: Header)
    requires Verified(sch, buf).Ok? && Decoded(sch, Verified(sch, buf).value, head, p) && sch.isReliable(p.ty)
    ensures Rewritten(sch, buf, h)
            == Ok((true, Sealed(sch, Overwritten(Verified(sch, buf).value, AfterSender(sch, head), HeaderBytes(h)))))
  {
    hide Decoded, ParseHead, Verified, Sealed, HeaderBytes, Overwritten, Rewritten;
    VerifiedParts(sch, buf);
    var data := Verified(sch, buf).value;
    DecodedFits(sch, data, head, p);
    NotEmpty(data);
    StepsRewrite(sch, buf, h, head, Sealed(sch, Overwritten(data, AfterSender(sch, head), HeaderBytes(h))));
  }

  lemma {:induction false} NotEmpty(data: Bytes)
    requires ParseHead(data).Ok?
    ensures |data| > 0
  {
  }

  /**
    Rewriting the header of a decodable frame: same length, same packet, same ID, valid checksum, and the
    header read afterwards is the one written.
   */
  lemma {:induction false} RewriteKeepsPacket(sch: Schema, buf: Bytes, h: Header)
    requires ValidSchema(sch) && Decode(sch, buf).Ok? && sch.isReliable(Decode(sch, buf).value.ty) && GoodHeader(h)
    ensures Rewritten(sch, buf, h).Ok? && Rewritten(sch, buf, h).value.0
    ensures var out := Rewritten(sch, buf, h).value.1;
            && |out| == |buf| && Verified(sch, out).Ok?
            && Decode(sch, out) == Decode(sch, buf)
            && PacketIdFromWire(sch, out) == PacketIdFromWire(sch, buf)
            && PeekFrameInfo(sch, out).Ok? && PeekFrameInfo(sch, out).value.header == Some(h)
  {
    hide Verified, DecodeData, Decoded, Sealed, Overwritten, HeaderBytes, Rewritten, FrameInfoOfData, IdOfData,
      ParseHead, PacketId, ValidSchema, PacketIdFromWire, HeaderIn;
    var p, data := Decode(sch, buf).value, Verified(sch, buf).value;
    DecodedSteps(sch, data, p);
    var head := ParseHead(data).value;
    DecodedFits(sch, data, head, p);
    RewriteFinds(sch, buf, head, p, h);
    VerifiedParts(sch, buf);
    DataRewrite(sch, data, head, p, h);
    var after := Overwritten(data, AfterSender(sch, head), HeaderBytes(h));
    SealedVerifies(sch, after);
    StepsDecode(sch, after, head, p);
    EnvelopeAgrees(sch, after, head, p);
    ParsersAgree(sch, buf);
    ParsersAgree(sch, Sealed(sch, after));
  }

  /** A frame of any other type is left as it is. */
  lemma {:induction false} NothingToRewrite(sch: Schema, buf: Bytes, h: Header)
    requires Decode(sch, buf).Ok? && !sch.isReliable(Decode(sch, buf).value.ty)
    ensures Rewritten(sch, buf, h) == Ok((false, buf))
  {
    hide Verified, DecodeData, Decoded, Sealed, Overwritten, HeaderBytes, ParseHead, HeaderOffset;
    var p, data := Decode(sch, buf).value, Verified(sch, buf).value;
    DecodedSteps(sch, data, p);
    VerifiedParts(sch, buf);
    DecodedFits(sch, data, ParseHead(data).value, p);
    NotEmpty(data);
    OffsetIs(sch, buf, ParseHead(data).value);
  }

  /** An ACK-only header, one with the lowest flag bit set, makes a control frame of it, which no longer decodes. */
  lemma {:induction false} AckOnlyMakesControlFrame(sch: Schema, buf: Bytes, h: Header)
    requires ValidSchema(sch) && Decode(sch, buf).Ok? && sch.isReliable(Decode(sch, buf).value.ty)
    requires h.flags % 2 == 1 && h.number < TWO_32 && h.ack < TWO_32
    ensures Rewritten(sch, buf, h).Ok? && Decode(sch, Rewritten(sch, buf, h).value.1) == Err(ControlFrame)
  {
    hide Verified, DecodeData, Decoded, Sealed, Overwritten, HeaderBytes, Rewritten, ParseHead, ValidSchema;
    var p, data := Decode(sch, buf).value, Verified(sch, buf).value;
    DecodedSteps(sch, data, p);
    var head := ParseHead(data).value;
    DecodedFits(sch, data, head, p);
    RewriteFinds(sch, buf, head, p, h);
    DataRewrite(sch, data, head, p, h);
    SealedVerifies(sch, Overwritten(data, AfterSender(sch, head), HeaderBytes(h)));
  }

  // -------------------------------------------------------------------------
  // Laws of rewriting
  // -------------------------------------------------------------------------

  /** Whatever the old checksum was, the new one is right: a rewrite also covers up damage. */
  lemma {:induction false} RewriteReseals(sch: Schema, buf: Bytes, h: Header)
    requires ValidSchema(sch) && Rewritten(sch, buf, h).Ok? && Rewritten(sch, buf, h).value.0
    ensures Verified(sch, Rewritten(sch, buf, h).value.1).Ok?
  {
    hide Verified, Sealed, Overwritten, HeaderBytes, Rewritten, ParseHead, ValidSchema;
    RewriteSteps(sch, buf, h);
    var data := buf[..|buf| - CRC_BYTES];
    SealedVerifies(sch, Overwritten(data, AfterSender(sch, ParseHead(data).value), HeaderBytes(h)));
  }

  /** The frame's data has a whole head of a reliable type, and room for a header behind the sender. */
  predicate HasHeader(sch: Schema, data: Bytes)
  {
    ParseHead(data).Ok? &&
    var head := ParseHead(data).value;
    CheckedType(sch, head.ty) == Ok(head.ty) && sch.isReliable(head.ty)
        && AfterSender(sch, head) + HEADER_BYTES <= |data|
  }

  /** Exactly when a frame is rewritten: the checksum `tail` has no say in it, nor in the outcome. */
  lemma {:induction false} RewritesExactly(sch: Schema, data: Bytes, tail: Bytes, h: Header)
    requires |tail| == CRC_BYTES
    ensures var r := Rewritten(sch, data + tail, h);
            && (r.Ok? && r.value.0 <==> HasHeader(sch, data))
            && (HasHeader(sch, data) ==> r == Rewritten(sch, Sealed(sch, data), h))
  {
    hide Rewritten, HeaderOffset, ParseHead, Sealed, Overwritten, HeaderBytes, CheckedType;
    var buf := data + tail;
    assert buf[..|buf| - CRC_BYTES] == data;
    if Rewritten(sch, buf, h).Ok? && Rewritten(sch, buf, h).value.0 {
      RewriteSteps(sch, buf, h);
    }
    if HasHeader(sch, data) {
      var head := ParseHead(data).value;
      NotEmpty(data);
      var out := Sealed(sch, Overwritten(data, AfterSender(sch, head), HeaderBytes(h)));
      SealedData(sch, data);
      StepsRewrite(sch, buf, h, head, out);
      StepsRewrite(sch, Sealed(sch, data), h, head, out);
    }
  }

  /**
    Every frame with a wrong checksum that can be rewritten at all is made good: what was refused before
    decodes afterwards to whatever its bytes now say.
   */
  lemma {:induction false} DamageCoveredUp(sch: Schema, data: Bytes, tail: Bytes, h: Header)
    requires ValidSchema(sch) && HasHeader(sch, data) && GoodHeader(h)
    requires |tail| == CRC_BYTES && tail != Le(sch.crc(data), CRC_BYTES)
    ensures Verified(sch, data + tail) == Err(BadCrc) && Decode(sch, data + tail).Err?
    ensures var r := Rewritten(sch, data + tail, h);
            && r.Ok? && r.value.0 && Verified(sch, r.value.1).Ok?
            && (DecodeData(sch, data).Ok? ==> Decode(sch, r.value.1) == DecodeData(sch, data))
  {
    hide Rewritten, ParseHead, DecodeData, Sealed, HasHeader, GoodHeader, ValidSchema, Verified;
    var buf := data + tail;
    WrongChecksum(sch, data, tail);
    RewritesExactly(sch, data, tail, h);
    RewriteReseals(sch, buf, h);
    SealedVerifies(sch, data);
    if DecodeData(sch, data).Ok? {
      SealedDecodes(sch, data);
      RewriteKeepsPacket(sch, Sealed(sch, data), h);
    }
  }

  lemma {:induction false} WrongChecksum(sch: Schema, data: Bytes, tail: Bytes)
    requires |tail| == CRC_BYTES && tail != Le(sch.crc(data), CRC_BYTES)
    ensures Verified(sch, data + tail) == Err(BadCrc)
  {
    hide Le, Value;
    var buf := data + tail;
    assert buf[..|buf| - CRC_BYTES] == data && buf[|data|..|data| + CRC_BYTES] == tail;
    LeOfValue(tail);
  }

  lemma {:induction false} SealedDecodes(sch: Schema, data: Bytes)
    requires ValidSchema(sch) && HasHeader(sch, data) && DecodeData(sch, data).Ok?
    ensures Decode(sch, Sealed(sch, data)) == DecodeData(sch, data)
    ensures sch.isReliable(DecodeData(sch, data).value.ty)
  {
    hide Verified, Sealed, ParseHead, EndpointsIn, SenderIn, PayloadIn, HeaderAt, AckOnly;
    SealedVerifies(sch, data);
  }

  /** The last of two rewrites is the only one that matters, byte for byte. */
  lemma {:induction false} LastRewriteWins(sch: Schema, buf: Bytes, first: Header, second: Header)
    requires Rewritten(sch, buf, first).Ok? && first.number < TWO_32 && first.ack < TWO_32
    ensures Rewritten(sch, Rewritten(sch, buf, first).value.1, second) == Rewritten(sch, buf, second)
  {
    hide Sealed, Overwritten, HeaderBytes, ParseHead, HeaderOffset;
    if Rewritten(sch, buf, first).value.0 {
      RewriteSteps(sch, buf, first);
      SecondRewrite(sch, buf, ParseHead(buf[..|buf| - CRC_BYTES]).value, first, second);
    }
  }

  lemma {:induction false} SecondRewrite(sch: Schema, buf: Bytes, head: Head, first: Header, second: Header)
    requires Rewritten(sch, buf, first).Ok? && first.number < TWO_32 && first.ack < TWO_32
    requires RewroteTo(sch, buf, first, head, Rewritten(sch, buf, first).value.1)
    ensures Rewritten(sch, Rewritten(sch, buf, first).value.1, second) == Rewritten(sch, buf, second)
  {
    hide Sealed, Overwritten, HeaderBytes, ParseHead, Rewritten;
    var data, off := buf[..|buf| - CRC_BYTES], AfterSender(sch, head);
    var once := Overwritten(data, off, HeaderBytes(first));
    var out := Sealed(sch, Overwritten(data, off, HeaderBytes(second)));
    RewrittenData(sch, data, head, first);
    SealedData(sch, once);
    OverwrittenTwice(data, off, HeaderBytes(first), HeaderBytes(second));
    StepsRewrite(sch, Sealed(sch, once), second, head, out);
    StepsRewrite(sch, buf, second, head, out);
  }

  lemma {:induction false} HeaderBytesAt(data: Bytes, off: nat)
    requires off + HEADER_BYTES <= |data|
    ensures HeaderBytes(HeaderAt(data, off)) == data[off..off + HEADER_BYTES]
  {
    LeOfValue(data[off + 1..off + 5]);
    LeOfValue(data[off + 5..off + 9]);
    var flags: Bytes := [data[off]];
    assert data[off..off + 9] == flags + data[off + 1..off + 5] + data[off + 5..off + 9];
    hide Le, Value;
  }

  /** Rewriting a frame with its own header changes nothing. */
  lemma {:induction false} RewriteWithOwnHeader(sch: Schema, buf: Bytes)
    requires PeekFrameInfo(sch, buf).Ok? && PeekFrameInfo(sch, buf).value.header.Some?
    ensures Rewritten(sch, buf, PeekFrameInfo(sch, buf).value.header.value) == Ok((true, buf))
  {
    hide Verified, Sealed, Overwritten, HeaderBytes, ParseHead, HeaderAt, EndpointsIn, SenderIn, Rewritten;
    VerifiedParts(sch, buf);
    var data := Verified(sch, buf).value;
    var head := ParseHead(data).value;
    var off := AfterSender(sch, head);
    NotEmpty(data);
    HeaderBytesAt(data, off);
    OverwrittenSame(data, off, HeaderBytes(HeaderAt(data, off)));
    StepsRewrite(sch, buf, HeaderAt(data, off), head, buf);
  }

  /** One rewrite for each hop. */
  function RewrittenAll(sch: Schema, buf: Bytes, hops: seq<Header>): Bytes
    decreases |hops|
  {
    if |hops| == 0 then buf
    else match Rewritten(sch, buf, hops[0])
      case Err(_) => buf
      case Ok((_, out)) => RewrittenAll(sch, out, hops[1..])
  }

  /**
    Over any number of hops the frame keeps its length, its packet and its ID, its checksum stays valid,
    and the header read at the end is exactly the last one written.
   */
  lemma {:induction false} HopsKeepPacket(sch: Schema, buf: Bytes, hops: seq<Header>)
    requires ValidSchema(sch) && Decode(sch, buf).Ok? && sch.isReliable(Decode(sch, buf).value.ty)
    requires forall i :: 0 <= i < |hops| ==> GoodHeader(hops[i])
    ensures var out := RewrittenAll(sch, buf, hops);
            && |out| == |buf| && Verified(sch, out).Ok?
            && Decode(sch, out) == Decode(sch, buf) && PacketIdFromWire(sch, out) == PacketIdFromWire(sch, buf)
            && (|hops| > 0 ==>
                  PeekFrameInfo(sch, out).Ok? && PeekFrameInfo(sch, out).value.header == Some(hops[|hops| - 1]))
    decreases |hops|
  {
    hide Verified, DecodeData, Rewritten, PeekFrameInfo, PacketIdFromWire, GoodHeader, ValidSchema;
    if |hops| > 0 {
      RewriteKeepsPacket(sch, buf, hops[0]);
      var out := Rewritten(sch, buf, hops[0]).value.1;
      HopsKeepPacket(sch, out, hops[1..]);
      assert |hops| > 1 ==> hops[1..][|hops| - 2] == hops[|hops| - 1];
    }
  }

  // -------------------------------------------------------------------------
  // In place
  // -------------------------------------------------------------------------

  method CopyInto(a: array<Byte>, at: nat, part: Bytes)
    requires at + |part| <= a.Length
    modifies a
    ensures a[..] == Overwritten(old(a[..]), at, part)
  {
    ghost var was := a[..];
    var i := 0;
    while i < |part|
      invariant 0 <= i <= |part|
      invariant forall k :: 0 <= k < i ==> a[at + k] == part[k]
      invariant forall k :: 0 <= k < a.Length && !(at <= k < at + i) ==> a[k] == was[k]
    {
      a[at + i] := part[i];
      i := i + 1;
    }
    assert a[..] == Overwritten(was, at, part);
  }

  lemma {:induction false} OverwrittenNext(buf: Bytes, at: nat, first: Bytes, second: Bytes)
    requires at + |first| + |second| <= |buf|
    ensures Overwritten(Overwritten(buf, at, first), at + |first|, second) == Overwritten(buf, at, first + second)
  {
    var once, both := Overwritten(buf, at, first), first + second;
    assert once[..at + |first|] == buf[..at] + first;
    assert once[at + |first| + |second|..] == buf[at + |both|..];
  }

  lemma {:induction false} ResealedInPlace(sch: Schema, buf: Bytes, off: nat, part: Bytes)
    requires off + |part| + CRC_BYTES <= |buf|
    ensures var size := |buf| - CRC_BYTES;
            var r := Overwritten(buf, off, part);
            && r[..size] == Overwritten(buf[..size], off, part)
            && Overwritten(r, size, Le(sch.crc(r[..size]), CRC_BYTES))
               == Sealed(sch, Overwritten(buf[..size], off, part))
  {
    hide Le;
    var size := |buf| - CRC_BYTES;
    var r := Overwritten(buf, off, part);
    assert r[..size] == Overwritten(buf[..size], off, part);
    assert r[size + CRC_BYTES..] == [];
  }

  method RewriteReliableHeader(sch: Schema, buf: array<Byte>, h: Header) returns (r: Result<bool, Problem>)
    modifies buf
    ensures match Rewritten(sch, old(buf[..]), h)
            case Err(e) => r == Err(e) && buf[..] == old(buf[..])
            case Ok((rewritten, out)) => r == Ok(rewritten) && buf[..] == out
  {
    hide HeaderOffset, Overwritten, Le, Sealed;
    ghost var was := buf[..];
    var found := HeaderOffset(sch, buf[..]);
    if found.Err? {
      return Err(found.error);
    }
    if found.value.None? {
      return Ok(false);
    }
    var off := found.value.value;
    OffsetOf(sch, was);
    var size := buf.Length - CRC_BYTES;
    if size < off + HEADER_BYTES {
      return Err(Short);
    }
    CopyInto(buf, off, [h.flags]);
    CopyInto(buf, off + 1, Le(h.number, 4));
    CopyInto(buf, off + 5, Le(h.ack, 4));
    OverwrittenNext(was, off, [h.flags], Le(h.number, 4));
    OverwrittenNext(was, off, [h.flags] + Le(h.number, 4), Le(h.ack, 4));
    ResealedInPlace(sch, was, off, HeaderBytes(h));
    CopyInto(buf, size, Le(sch.crc(buf[..size]), CRC_BYTES));
    r := Ok(true);
  }
}
