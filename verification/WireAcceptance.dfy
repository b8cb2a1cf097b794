/** What the decoder accepts: any byte string, whoever made it. */
module WireAcceptance {
  import opened Wrappers
  import opened LittleEndian
  import opened CanonicalLists
  import opened EndpointBitmap
  import opened WireFrame
  import opened WireAgreement
  import opened WireRoundTrip
  import Uleb128

  /** The checksum is the last four bytes, and it is the first thing that is looked at. */
  lemma {:induction false} VerifiedExactly(sch: Schema, buf: Bytes)
    ensures |buf| < 4 ==> Verified(sch, buf) == Err(Short)
    ensures |buf| >= 4 ==>
              var data := buf[..|buf| - 4];
              Verified(sch, buf) == if sch.crc(data) == Value(buf[|buf| - 4..]) then Ok(data) else Err(BadCrc)
  {
    hide Value;
    if |buf| >= 4 {
      assert buf[|buf| - 4..|buf| - 4 + 4] == buf[|buf| - 4..];
    }
  }

  /** A type code has to be a known one, and a number beyond 32 bits is told apart from an unknown code. */
  lemma {:induction false} TypeExactly(sch: Schema, ty: nat)
    ensures CheckedType(sch, ty) == if ty >= 0x1_0000_0000 then Err(TypeTooLarge)
                                    else if sch.isType(ty) then Ok(ty) else Err(InvalidType)
  {
  }

  /** What a refusal of one field says: which of the two things that can be wrong with it is. */
  lemma {:induction false} FieldErrors(sch: Schema, data: Bytes, head: Head, off: nat)
    requires AfterSender(sch, head) <= |data| && off <= |data|
    ensures EndpointsIn(sch, data, head).Err? ==>
              var bm := data[head.off..SenderAt(sch, head)];
              EndpointsIn(sch, data, head).error
              == if exists e :: 0 <= e < sch.bits && IsSet(bm, e) && !sch.isEndpoint(e)
                 then BadEndpoint else EndpointCount
    ensures SenderIn(sch, data, head).Err? ==> SenderIn(sch, data, head).error == BadSender
    ensures PayloadIn(sch, data, head, off).Err? ==>
              PayloadIn(sch, data, head, off).error == if head.payloadPacked then BadPayload else Short
  {
    hide IsSet;
    ExpandFromMeaning(sch.isEndpoint, data[head.off..SenderAt(sch, head)], 0, sch.bits);
  }

  lemma {:induction false} EndpointsGood(sch: Schema, data: Bytes, head: Head)
    requires SenderAt(sch, head) <= |data| && EndpointsIn(sch, data, head).Ok?
    ensures var eps := EndpointsIn(sch, data, head).value;
            Ascending(NatLess, eps) && |eps| == head.count && forall e :: e in eps ==> e < sch.bits && sch.isEndpoint(e)
  {
    hide IsSet;
    ExpandFromMeaning(sch.isEndpoint, data[head.off..SenderAt(sch, head)], 0, sch.bits);
  }

  lemma {:induction false} HeadNumbers(data: Bytes)
    requires ParseHead(data).Ok?
    ensures var head := ParseHead(data).value;
            head.count < 256 && head.size < TWO_64 && head.timestamp < TWO_64 && head.senderLen < TWO_64
            && (!head.senderPacked ==> head.wireLen == head.senderLen)
  {
    hide Uleb128.DecodeWide;
  }

  lemma {:induction false} SenderGood(sch: Schema, data: Bytes, head: Head)
    requires ValidSchema(sch) && AfterSender(sch, head) <= |data| && SenderIn(sch, data, head).Ok?
    requires !head.senderPacked ==> head.wireLen == head.senderLen
    ensures var sender := SenderIn(sch, data, head).value; sch.utf8(sender) && |sender| == head.senderLen
  {
  }

  /**
    Whatever bytes are decoded, the packet is one the program could have built: a known type, one to 255 known
    endpoints in ascending order, a sender that is text, a payload that suits the type, and 64-bit numbers.
   */
  lemma {:induction false} DecodedIsGood(sch: Schema, buf: Bytes)
    requires ValidSchema(sch) && Decode(sch, buf).Ok?
    ensures var p := Decode(sch, buf).value;
            && GoodPacket(sch, p) && Ascending(NatLess, p.endpoints) && |p.endpoints| < 256
            && sch.isType(p.ty) && sch.utf8(p.sender) && sch.payloadOk(p.ty, p.payload) && |p.endpoints| > 0
            && (forall e :: e in p.endpoints ==> e < sch.bits && sch.isEndpoint(e))
            && p.timestamp < TWO_64 && |p.sender| < TWO_64 && |p.payload| < TWO_64
  {
    hide Verified, DecodeData, ParseHead, EndpointsIn, SenderIn, SenderBytes, PayloadIn, HeaderAt, AckOnly, ValidSchema,
      Ascending;
    var p, data := Decode(sch, buf).value, Verified(sch, buf).value;
    DecodedSteps(sch, data, p);
    var head := ParseHead(data).value;
    HeadNumbers(data);
    EndpointsGood(sch, data, head);
    SenderGood(sch, data, head);
    var off := AfterSender(sch, head);
    PayloadSize(sch, data, head, if sch.isReliable(head.ty) then off + HEADER_BYTES else off);
  }

  /**
    A relay that decodes a frame and encodes the packet again passes on the same packet: every decoded packet can be
    encoded, with any fitting header, and decodes to itself, byte for byte.
   */
  lemma {:induction false} ReencodingKeepsPacket(sch: Schema, buf: Bytes, h: Option<Header>)
    requires ValidSchema(sch) && Decode(sch, buf).Ok? && HeaderFor(sch, Decode(sch, buf).value, h)
    ensures var p := Decode(sch, buf).value;
            && EncodeWith(sch, p, h).Some?
            && Decode(sch, EncodeWith(sch, p, h).value) == Ok(p)
            && PacketIdFromWire(sch, EncodeWith(sch, p, h).value) == PacketIdFromWire(sch, buf)
  {
    hide Decode, EncodeWith, PacketIdFromWire, ValidSchema, PeekFrameInfo, PeekEnvelope, GoodPacket, HeaderFor,
      PacketId;
    var p := Decode(sch, buf).value;
    DecodedIsGood(sch, buf);
    NatOrder();
    SortDedupIdempotent(NatLess, p.endpoints);
    PacketRoundTrip(sch, p, h);
    WireIdIsCanonicalId(sch, p, h);
    ParsersAgree(sch, buf);
  }
}
