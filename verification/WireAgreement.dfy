/** The four parsers of a frame agree wherever the full one succeeds, and differ only where they should. */
module WireAgreement {
  import opened Wrappers
  import opened LittleEndian
  import opened CanonicalLists
  import opened EndpointBitmap
  import opened PacketHash
  import opened WireFrame

  /** Hashing off the bitmap is hashing the expanded list. */
  lemma {:induction false} HashBitsExpands(sch: Schema, h: nat, bm: Bytes, idx: nat)
    requires idx <= sch.bits
    ensures HashBits(sch, h, bm, idx)
            == match ExpandFrom(sch.isEndpoint, bm, idx, sch.bits)
               case None => None
               case Some(eps) => Some(HashNames(sch, h, eps))
    decreases sch.bits - idx
  {
    if idx < sch.bits {
      hide IsSet, HashBytes;
      var next := HashBytes(h, sch.endpointName(idx));
      HashBitsExpands(sch, h, bm, idx + 1);
      HashBitsExpands(sch, next, bm, idx + 1);
      var rest := ExpandFrom(sch.isEndpoint, bm, idx + 1, sch.bits);
      if rest.Some? {
        assert ([idx] + rest.value)[1..] == rest.value;
      }
    }
  }

  /** A payload that is read has the size the head announces. */
  lemma {:induction false} PayloadSize(sch: Schema, data: Bytes, head: Head, off: nat)
    requires ValidSchema(sch) && off <= |data| && PayloadIn(sch, data, head, off).Ok?
    ensures |PayloadIn(sch, data, head, off).value| == head.size
  {
  }

  /** The reliable header a frame of this head carries. */
  function HeaderIn(sch: Schema, data: Bytes, head: Head): Option<Header>
    requires sch.isReliable(head.ty) ==> AfterSender(sch, head) + HEADER_BYTES <= |data|
  {
    if sch.isReliable(head.ty) then Some(HeaderAt(data, AfterSender(sch, head))) else None
  }

  /** Every step of a successful decoding. */
  ghost predicate Decoded(sch: Schema, data: Bytes, head: Head, p: Packet)
  {
    var off := AfterSender(sch, head);
    var at := if sch.isReliable(head.ty) then off + HEADER_BYTES else off;
    && ParseHead(data) == Ok(head) && CheckedType(sch, head.ty) == Ok(p.ty) && p.ty == head.ty
    && at + (if head.payloadPacked then 1 else head.size) <= |data|
    && EndpointsIn(sch, data, head) == Ok(p.endpoints)
    && SenderIn(sch, data, head) == Ok(p.sender)
    && !(sch.isReliable(p.ty) && AckOnly(HeaderAt(data, off)))
    && PayloadIn(sch, data, head, at) == Ok(p.payload)
    && p.timestamp == head.timestamp
    && |p.endpoints| > 0 && sch.payloadOk(p.ty, p.payload)
  }

  lemma {:induction false} DecodedSteps(sch: Schema, data: Bytes, p: Packet)
    requires DecodeData(sch, data) == Ok(p)
    ensures ParseHead(data).Ok? && Decoded(sch, data, ParseHead(data).value, p)
  {
    hide ParseHead, EndpointsIn, SenderIn, PayloadIn, HeaderAt, AckOnly;
  }

  lemma {:induction false} StepsDecode(sch: Schema, data: Bytes, head: Head, p: Packet)
    requires Decoded(sch, data, head, p)
    ensures DecodeData(sch, data) == Ok(p)
  {
    hide ParseHead, EndpointsIn, SenderIn, PayloadIn, HeaderAt, AckOnly;
  }

  lemma {:induction false} SenderIsText(sch: Schema, data: Bytes, head: Head)
    requires AfterSender(sch, head) <= |data|
    ensures SenderIn(sch, data, head).Ok? <==>
              SenderBytes(sch, data, head).Some? && sch.utf8(SenderBytes(sch, data, head).value)
    ensures SenderIn(sch, data, head).Ok? ==> SenderIn(sch, data, head).value == SenderBytes(sch, data, head).value
  {
  }

  lemma {:induction false} EnvelopeAgrees(sch: Schema, data: Bytes, head: Head, p: Packet)
    requires Decoded(sch, data, head, p)
    ensures EnvelopeOfData(sch, data) == Ok(Envelope(p.ty, p.endpoints, p.sender, p.timestamp))
    ensures FrameInfoOfData(sch, data)
            == Ok(FrameInfo(Envelope(p.ty, p.endpoints, p.sender, p.timestamp), HeaderIn(sch, data, head)))
    ensures HeaderIn(sch, data, head).Some? <==> sch.isReliable(p.ty)
    ensures HeaderIn(sch, data, head).Some? ==> !AckOnly(HeaderIn(sch, data, head).value)
  {
    hide ParseHead, EndpointsIn, SenderIn, PayloadIn, HeaderAt, AckOnly;
  }

  lemma {:induction false} IdAgrees(sch: Schema, data: Bytes, head: Head, p: Packet)
    requires ValidSchema(sch) && Decoded(sch, data, head, p)
    ensures IdOfData(sch, data) == Ok(PacketId(sch, p))
  {
    hide ParseHead, EndpointsIn, SenderIn, SenderBytes, PayloadIn, HeaderAt, AckOnly, HashBytes, HashNames, HashBits,
      HashTail;
    var off := AfterSender(sch, head);
    PayloadSize(sch, data, head, if sch.isReliable(head.ty) then off + HEADER_BYTES else off);
    SenderIsText(sch, data, head);
    EndpointsHash(sch, data, head, HashBytes(HashBytes(SEED, p.sender), sch.typeName(p.ty)));
  }

  lemma {:induction false} EndpointsHash(sch: Schema, data: Bytes, head: Head, h: nat)
    requires SenderAt(sch, head) <= |data| && EndpointsIn(sch, data, head).Ok?
    ensures HashBits(sch, h, data[head.off..SenderAt(sch, head)], 0)
            == Some(HashNames(sch, h, EndpointsIn(sch, data, head).value))
  {
    hide HashBits, HashNames;
    HashBitsExpands(sch, h, data[head.off..SenderAt(sch, head)], 0);
  }

  /**
    Wherever a packet can be decoded, the envelope, the frame info and the packet ID can be read off the
    same bytes, and they are the packet's own.
   */
  lemma {:induction false} ParsersAgree(sch: Schema, buf: Bytes)
    requires ValidSchema(sch) && Decode(sch, buf).Ok?
    ensures var p := Decode(sch, buf).value;
            var env := Envelope(p.ty, p.endpoints, p.sender, p.timestamp);
            && PeekEnvelope(sch, buf) == Ok(env)
            && PeekFrameInfo(sch, buf).Ok? && PeekFrameInfo(sch, buf).value.envelope == env
            && (PeekFrameInfo(sch, buf).value.header.Some? <==> sch.isReliable(p.ty))
            && (PeekFrameInfo(sch, buf).value.header.Some? ==> !AckOnly(PeekFrameInfo(sch, buf).value.header.value))
            && PacketIdFromWire(sch, buf) == Ok(PacketId(sch, p))
  {
    hide Verified, DecodeData, Decoded, EnvelopeOfData, FrameInfoOfData, IdOfData, ParseHead, PacketId, AckOnly;
    var data := Verified(sch, buf).value;
    var p := Decode(sch, buf).value;
    DecodedSteps(sch, data, p);
    EnvelopeAgrees(sch, data, ParseHead(data).value, p);
    IdAgrees(sch, data, ParseHead(data).value, p);
  }

  /** Every byte string the frame peek accepts, the envelope peek accepts too. */
  lemma {:induction false} FrameInfoHasEnvelope(sch: Schema, buf: Bytes)
    requires PeekFrameInfo(sch, buf).Ok?
    ensures PeekEnvelope(sch, buf) == Ok(PeekFrameInfo(sch, buf).value.envelope)
  {
    hide Verified, ParseHead, EndpointsIn, SenderIn, CheckedType, HeaderAt;
  }

  /** And exactly then if no header is due, or there is room for it. */
  lemma {:induction false} FrameInfoExactly(sch: Schema, buf: Bytes)
    ensures PeekFrameInfo(sch, buf).Ok? <==>
              && PeekEnvelope(sch, buf).Ok?
              && (sch.isReliable(PeekEnvelope(sch, buf).value.ty) ==>
                    var data := Verified(sch, buf).value;
                    AfterSender(sch, ParseHead(data).value) + HEADER_BYTES <= |data|)
  {
    hide Verified, ParseHead, EndpointsIn, SenderIn, CheckedType, HeaderAt;
  }

  /** What the ID parser has seen when it succeeds. */
  ghost predicate Identified(sch: Schema, data: Bytes, head: Head)
  {
    var off := AfterSender(sch, head);
    var at := if sch.isReliable(head.ty) then off + HEADER_BYTES else off;
    && ParseHead(data) == Ok(head) && CheckedType(sch, head.ty) == Ok(head.ty)
    && at + (if head.payloadPacked then 1 else head.size) <= |data|
    && SenderBytes(sch, data, head).Some?
    && !(sch.isReliable(head.ty) && AckOnly(HeaderAt(data, off)))
    && PayloadIn(sch, data, head, at).Ok?
    && Expand(sch.isEndpoint, data[head.off..SenderAt(sch, head)], sch.bits).Some?
  }

  lemma {:induction false} IdSteps(sch: Schema, data: Bytes)
    requires IdOfData(sch, data).Ok?
    ensures ParseHead(data).Ok? && Identified(sch, data, ParseHead(data).value)
  {
    hide ParseHead, SenderBytes, PayloadIn, HeaderAt, AckOnly, HashBytes, HashNames, HashBits, HashTail, ExpandFrom;
    var head := ParseHead(data).value;
    PayloadFits(sch, data, head);
    if |data| >= AfterSender(sch, head) && SenderBytes(sch, data, head).Some? {
      HashBitsExpands(sch, HashBytes(HashBytes(SEED, SenderBytes(sch, data, head).value),
          sch.typeName(head.ty)),
        data[head.off..SenderAt(sch, head)], 0);
    }
  }

  lemma {:induction false} PayloadFits(sch: Schema, data: Bytes, head: Head)
    ensures forall off: nat :: off <= |data| && PayloadIn(sch, data, head, off).Ok? && !head.payloadPacked ==>
              off + head.size <= |data|
  {
  }

  /** What the ID parser does not look at: the endpoint count, the sender as text, and the payload's kind. */
  ghost predicate Checked(sch: Schema, data: Bytes, head: Head)
    requires Identified(sch, data, head)
  {
    var off := AfterSender(sch, head);
    && EndpointsIn(sch, data, head).Ok? && |EndpointsIn(sch, data, head).value| > 0
    && SenderIn(sch, data, head).Ok?
    && sch.payloadOk(head.ty,
         PayloadIn(sch, data, head, if sch.isReliable(head.ty) then off + HEADER_BYTES else off).value)
  }

  /**
    Exactly what the ID parser leaves unchecked: a frame it accepts decodes to a packet if and only if
    the endpoint count matches, the sender is text, an endpoint is selected and the payload suits its type.
   */
  lemma {:induction false} DecodesExactly(sch: Schema, buf: Bytes)
    requires PacketIdFromWire(sch, buf).Ok?
    ensures var data := Verified(sch, buf).value;
            var head := ParseHead(data).value;
            && Verified(sch, buf).Ok? && ParseHead(data).Ok? && Identified(sch, data, head)
            && (Decode(sch, buf).Ok? <==> Checked(sch, data, head))
  {
    hide Verified, ParseHead, EndpointsIn, SenderIn, SenderBytes, PayloadIn, HeaderAt, AckOnly, IdOfData, Expand;
    var data := Verified(sch, buf).value;
    IdSteps(sch, data);
    var head := ParseHead(data).value;
  }
}
