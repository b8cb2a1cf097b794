/** The frame codec as it runs: an output buffer that grows, and a reader that moves over the input. */
module WireCodec {
  import opened Wrappers
  import opened LittleEndian
  import opened EndpointBitmap
  import opened PacketHash
  import opened WireFrame
  import Uleb128

  // -------------------------------------------------------------------------
  // Reader
  // -------------------------------------------------------------------------

  class ByteReader {
    const buf: Bytes
    var off: nat

    ghost predicate Valid()
      reads this
    {
      off <= |buf|
    }

    constructor (buf: Bytes)
      ensures Valid() && this.buf == buf && off == 0
    {
      this.buf := buf;
      off := 0;
    }

    function Remaining(): (n: nat)
      reads this
      requires Valid()
      ensures off + n == |buf|
    {
      |buf| - off
    }

    /** Exactly `n` bytes, or none at all. */
    method ReadBytes(n: nat) returns (r: Option<Bytes>)
      requires Valid()
      modifies this
      ensures Valid()
      ensures if old(off) + n <= |buf| then r == Some(buf[old(off)..old(off) + n]) && off == old(off) + n
              else r == None && off == old(off)
    {
      if Remaining() < n {
        return None;
      }
      r := Some(buf[off..off + n]);
      off := off + n;
    }

    method ReadUleb128() returns (r: Uleb128.Read)
      requires Valid()
      modifies this
      ensures Valid() && r == Uleb128.Decode(buf, old(off))
      ensures off == if r.Read? then r.next else old(off)
    {
      r := Uleb128.ReadUleb128(buf, off);
      if r.Read? {
        off := r.next;
      }
    }

    method ReadHeader() returns (r: Option<Header>)
      requires Valid()
      modifies this
      ensures Valid()
      ensures if old(off) + HEADER_BYTES <= |buf| then r == Some(HeaderAt(buf, old(off)))
              && off == old(off) + HEADER_BYTES
              else r == None
    {
      hide Value;
      var flags := ReadBytes(1);
      if flags.None? {
        return None;
      }
      var number := ReadBytes(4);
      if number.None? {
        return None;
      }
      var ack := ReadBytes(4);
      if ack.None? {
        return None;
      }
      r := Some(Header(flags.value[0], Value(number.value), Value(ack.value)));
    }
  }

  // -------------------------------------------------------------------------
  // Decoding
  // -------------------------------------------------------------------------

  method ReadHead(r: ByteReader) returns (head: Result<Head, Problem>)
    requires r.Valid() && r.off == 0
    modifies r
    ensures r.Valid() && head == ParseHead(r.buf)
    ensures head.Ok? ==> r.off == head.value.off
  {
    hide Uleb128.Decode;
    var flags := r.ReadBytes(1);
    if flags.None? {
      return Err(Short);
    }
    var count := r.ReadBytes(1);
    if count.None? {
      return Err(Short);
    }
    var ty := r.ReadUleb128();
    if !ty.Read? {
      return Err(VarintProblem(ty));
    }
    var size := r.ReadUleb128();
    if !size.Read? {
      return Err(VarintProblem(size));
    }
    var timestamp := r.ReadUleb128();
    if !timestamp.Read? {
      return Err(VarintProblem(timestamp));
    }
    var senderLen := r.ReadUleb128();
    if !senderLen.Read? {
      return Err(VarintProblem(senderLen));
    }
    var packed := flags.value[0] / 2 % 2 == 1;
    var wire := senderLen;
    if packed {
      wire := r.ReadUleb128();
      if !wire.Read? {
        return Err(VarintProblem(wire));
      }
    }
    head := Ok(Head(flags.value[0] % 2 == 1, packed, count.value[0], ty.value, size.value, timestamp.value,
        senderLen.value,
                    wire.value, r.off));
  }

  method ReadEndpoints(sch: Schema, r: ByteReader, head: Head) returns (eps: Result<seq<nat>, Problem>)
    requires r.Valid() && r.off == head.off && SenderAt(sch, head) <= |r.buf|
    modifies r
    ensures r.Valid() && r.off == SenderAt(sch, head) && eps == EndpointsIn(sch, r.buf, head)
  {
    hide Expand;
    var bm := r.ReadBytes(MapBytes(sch.bits));
    var found := ExpandEndpointBitmap(sch.isEndpoint, bm.value, sch.bits);
    if found.None? {
      return Err(BadEndpoint);
    }
    if |found.value| != head.count {
      return Err(EndpointCount);
    }
    eps := Ok(found.value);
  }

  method ReadSenderBytes(sch: Schema, r: ByteReader, head: Head) returns (sender: Option<Bytes>)
    requires r.Valid() && r.off == SenderAt(sch, head) && AfterSender(sch, head) <= |r.buf|
    modifies r
    ensures r.Valid() && r.off == AfterSender(sch, head) && sender == SenderBytes(sch, r.buf, head)
  {
    var raw := r.ReadBytes(head.wireLen);
    sender := if head.senderPacked then sch.decompress(raw.value, head.senderLen) else raw;
  }

  method ReadSender(sch: Schema, r: ByteReader, head: Head) returns (sender: Result<Bytes, Problem>)
    requires r.Valid() && r.off == SenderAt(sch, head) && AfterSender(sch, head) <= |r.buf|
    modifies r
    ensures r.Valid() && r.off == AfterSender(sch, head) && sender == SenderIn(sch, r.buf, head)
  {
    var name := ReadSenderBytes(sch, r, head);
    if name.None? || !sch.utf8(name.value) {
      return Err(BadSender);
    }
    sender := Ok(name.value);
  }

  method ReadPayload(sch: Schema, r: ByteReader, head: Head) returns (payload: Result<Bytes, Problem>)
    requires r.Valid()
    modifies r
    ensures payload == PayloadIn(sch, r.buf, head, old(r.off))
  {
    if !head.payloadPacked {
      var plain := r.ReadBytes(head.size);
      return if plain.Some? then Ok(plain.value) else Err(Short);
    }
    assert r.buf[r.off..|r.buf|] == r.buf[r.off..];
    var packed := r.ReadBytes(r.Remaining());
    var plain := sch.decompress(packed.value, head.size);
    payload := if plain.Some? then Ok(plain.value) else Err(BadPayload);
  }

  method DeserializeData(sch: Schema, data: Bytes) returns (p: Result<Packet, Problem>)
    ensures p == DecodeData(sch, data)
  {
    hide ParseHead, EndpointsIn, SenderIn, PayloadIn, HeaderAt, AckOnly;
    var r := new ByteReader(data);
    var head := ReadHead(r);
    if head.Err? {
      return Err(head.error);
    }
    var h := head.value;
    var ty := CheckedType(sch, h.ty);
    if ty.Err? {
      return Err(ty.error);
    }
    if r.Remaining() < BytesNeeded(sch, h) {
      return Err(Short);
    }
    var eps := ReadEndpoints(sch, r, h);
    if eps.Err? {
      return Err(eps.error);
    }
    var sender := ReadSender(sch, r, h);
    if sender.Err? {
      return Err(sender.error);
    }
    if sch.isReliable(ty.value) {
      var header := r.ReadHeader();
      if AckOnly(header.value) {
        return Err(ControlFrame);
      }
    }
    var payload := ReadPayload(sch, r, h);
    if payload.Err? {
      return Err(payload.error);
    }
    p := NewPacket(sch, ty.value, eps.value, sender.value, h.timestamp, payload.value);
  }

  method DeserializePacket(sch: Schema, buf: Bytes) returns (p: Result<Packet, Problem>)
    ensures p == Decode(sch, buf)
  {
    hide DecodeData;
    var data := Verified(sch, buf);
    if data.Err? {
      return Err(data.error);
    }
    p := DeserializeData(sch, data.value);
  }

  // -------------------------------------------------------------------------
  // Peeking
  // -------------------------------------------------------------------------

  method ReadEnvelope(sch: Schema, buf: Bytes) returns (env: Result<Envelope, Problem>)
    ensures env == PeekEnvelope(sch, buf)
  {
    hide ParseHead, EndpointsIn, SenderIn, Verified;
    var data := Verified(sch, buf);
    if data.Err? {
      return Err(data.error);
    }
    var r := new ByteReader(data.value);
    var head := ReadHead(r);
    if head.Err? {
      return Err(head.error);
    }
    var h := head.value;
    if r.Remaining() < MapBytes(sch.bits) + h.wireLen {
      return Err(Short);
    }
    var eps := ReadEndpoints(sch, r, h);
    if eps.Err? {
      return Err(eps.error);
    }
    var sender := ReadSender(sch, r, h);
    if sender.Err? {
      return Err(sender.error);
    }
    var ty := CheckedType(sch, h.ty);
    if ty.Err? {
      return Err(ty.error);
    }
    env := Ok(Envelope(ty.value, eps.value, sender.value, h.timestamp));
  }

  method ReadFrameInfo(sch: Schema, buf: Bytes) returns (info: Result<FrameInfo, Problem>)
    ensures info == PeekFrameInfo(sch, buf)
  {
    hide ParseHead, EndpointsIn, SenderIn, HeaderAt, Verified;
    var data := Verified(sch, buf);
    if data.Err? {
      return Err(data.error);
    }
    var r := new ByteReader(data.value);
    var head := ReadHead(r);
    if head.Err? {
      return Err(head.error);
    }
    var h := head.value;
    if r.Remaining() < MapBytes(sch.bits) + h.wireLen {
      return Err(Short);
    }
    var eps := ReadEndpoints(sch, r, h);
    if eps.Err? {
      return Err(eps.error);
    }
    var sender := ReadSender(sch, r, h);
    if sender.Err? {
      return Err(sender.error);
    }
    var ty := CheckedType(sch, h.ty);
    if ty.Err? {
      return Err(ty.error);
    }
    var env := Envelope(ty.value, eps.value, sender.value, h.timestamp);
    if !sch.isReliable(ty.value) {
      return Ok(FrameInfo(env, None));
    }
    if r.Remaining() < HEADER_BYTES {
      return Err(Short);
    }
    var header := r.ReadHeader();
    info := Ok(FrameInfo(env, header));
  }

  // -------------------------------------------------------------------------
  // Encoding
  // -------------------------------------------------------------------------

  method WriteHead(sch: Schema, p: Packet, count: Byte) returns (out: Bytes)
    requires p.ty < TWO_64 && |p.payload| < TWO_64 && p.timestamp < TWO_64 && |p.sender| < TWO_64
    requires Popcount(Build(p.endpoints, sch.bits)) == count
    ensures out == HeadBytes(sch, p)
  {
    hide Uleb128.Encode, Popcount, Build;
    var (payloadPacked, _) := Packed(sch, p.payload);
    var (senderPacked, sender) := Packed(sch, p.sender);
    out := [FlagByte(payloadPacked, senderPacked)];
    out := out + [count];
    out := Uleb128.WriteUleb128(p.ty, out);
    out := Uleb128.WriteUleb128(|p.payload|, out);
    out := Uleb128.WriteUleb128(p.timestamp, out);
    out := Uleb128.WriteUleb128(|p.sender|, out);
    if senderPacked {
      out := Uleb128.WriteUleb128(|sender|, out);
    }
  }

  /** A packet's lengths and times have 64 bits; more than 255 endpoints fail the program's assertion. */
  method SerializePacketInner(sch: Schema, p: Packet, h: Option<Header>) returns (frame: Option<Bytes>)
    requires p.ty < TWO_64 && |p.payload| < TWO_64 && p.timestamp < TWO_64 && |p.sender| < TWO_64
    ensures frame == EncodeWith(sch, p, h)
  {
    hide HeadBytes, Popcount, Build, Packed, HeaderBytes, Le;
    var bm := BuildEndpointBitmap(p.endpoints, sch.bits);
    var count := Popcount(bm[..]);
    if count >= 256 {
      return None;
    }
    var out := WriteHead(sch, p, count);
    out := out + bm[..];
    out := out + Packed(sch, p.sender).1;
    if h.Some? {
      out := out + HeaderBytes(h.value);
    } else {
      assert out + [] == out;
    }
    out := out + Packed(sch, p.payload).1;
    out := out + Le(sch.crc(out), CRC_BYTES);
    frame := Some(out);
  }

  // -------------------------------------------------------------------------
  // Packet IDs
  // -------------------------------------------------------------------------

  method HashBytesU64(h: nat, bytes: Bytes) returns (r: nat)
    ensures r == HashBytes(h, bytes)
  {
    r := h;
    var rest := bytes;
    while |rest| > 0
      invariant HashBytes(r, rest) == HashBytes(h, bytes)
      decreases |rest|
    {
      r := Xor(r, rest[0]);
      r := r * 0x9E37_79B1 % TWO_64;
      r := Xor(r, Shr(r, 27));
      rest := rest[1..];
    }
  }

  method ComputePacketId(sch: Schema, p: Packet) returns (h: nat)
    ensures h == PacketId(sch, p)
  {
    hide HashBytes;
    h := HashBytesU64(SEED, p.sender);
    h := HashBytesU64(h, sch.typeName(p.ty));
    var rest := p.endpoints;
    ghost var named := HashNames(sch, h, rest);
    while |rest| > 0
      invariant HashNames(sch, h, rest) == named
      decreases |rest|
    {
      h := HashBytesU64(h, sch.endpointName(rest[0]));
      rest := rest[1..];
    }
    h := HashBytesU64(h, Le(p.timestamp, 8));
    h := HashBytesU64(h, Le(|p.payload|, 8));
    h := HashBytesU64(h, p.payload);
  }

  /** Names of the selected endpoints, hashed straight off the bitmap. */
  method HashBitmap(sch: Schema, start: nat, bm: Bytes) returns (h: Option<nat>)
    ensures h == HashBits(sch, start, bm, 0)
  {
    hide HashBytes, IsSet;
    var sum := start;
    for idx := 0 to sch.bits
      invariant HashBits(sch, sum, bm, idx) == HashBits(sch, start, bm, 0)
    {
      if IsSet(bm, idx) {
        if !sch.isEndpoint(idx) {
          return None;
        }
        sum := HashBytesU64(sum, sch.endpointName(idx));
      }
    }
    h := Some(sum);
  }

  /** The payload's bytes for hashing: by their length, or everything that remains if there is anything. */
  method ReadHashedPayload(sch: Schema, r: ByteReader, head: Head) returns (payload: Result<Bytes, Problem>)
    requires r.Valid()
    modifies r
    ensures payload == if head.payloadPacked && |r.buf| - old(r.off) < 1 then Err(Short)
                       else PayloadIn(sch, r.buf, head, old(r.off))
  {
    if !head.payloadPacked {
      if r.Remaining() < head.size {
        return Err(Short);
      }
      var plain := r.ReadBytes(head.size);
      return Ok(plain.value);
    }
    if r.Remaining() < 1 {
      return Err(Short);
    }
    assert r.buf[r.off..|r.buf|] == r.buf[r.off..];
    var packed := r.ReadBytes(r.Remaining());
    var plain := sch.decompress(packed.value, head.size);
    payload := if plain.Some? then Ok(plain.value) else Err(BadPayload);
  }

  /** The packet ID as it is computed from a frame: all reads first, in this order, then the hashing. */
  method ReadPacketId(sch: Schema, buf: Bytes) returns (id: Result<nat, Problem>)
    ensures id == PacketIdFromWire(sch, buf)
  {
    hide ParseHead, SenderBytes, PayloadIn, HeaderAt, Verified, HashBytes, HashBits, AckOnly;
    var data := Verified(sch, buf);
    if data.Err? {
      return Err(data.error);
    }
    var r := new ByteReader(data.value);
    var head := ReadHead(r);
    if head.Err? {
      return Err(head.error);
    }
    var h := head.value;
    if r.Remaining() < MapBytes(sch.bits) + h.wireLen {
      return Err(Short);
    }
    var bm := r.ReadBytes(MapBytes(sch.bits));
    var ty := CheckedType(sch, h.ty);
    if ty.Err? {
      return Err(ty.error);
    }
    var sender := ReadSenderBytes(sch, r, h);
    if sender.None? {
      return Err(BadSender);
    }
    if sch.isReliable(ty.value) {
      var header := r.ReadHeader();
      if header.None? {
        return Err(Short);
      }
      if AckOnly(header.value) {
        return Err(ControlFrame);
      }
    }
    var payload := ReadHashedPayload(sch, r, h);
    if payload.Err? {
      return Err(payload.error);
    }
    var sum := HashBytesU64(SEED, sender.value);
    sum := HashBytesU64(sum, sch.typeName(ty.value));
    var named := HashBitmap(sch, sum, bm.value);
    if named.None? {
      return Err(BadEndpoint);
    }
    sum := HashBytesU64(named.value, Le(h.timestamp, 8));
    sum := HashBytesU64(sum, Le(h.size, 8));
    sum := HashBytesU64(sum, payload.value);
    id := Ok(sum);
  }
}
