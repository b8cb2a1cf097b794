/**
  The compact frame: a flag byte, an endpoint count, four or five variable-length integers, an endpoint
  bitmap, the sender, an optional reliable header, the payload and a checksum.
 */
module WireFrame {
  import opened Wrappers
  import opened LittleEndian
  import opened EndpointBitmap
  import opened PacketHash
  import Uleb128

  /**
    What the format leaves open: checksum and compressor, text validity, the tables of types and
    endpoints, and payload validation. `bits` is the number of endpoint codes, `threshold` the length from
    which compression is tried.
   */
  datatype Schema = Schema(
    crc: Bytes -> nat, compress: Bytes -> Option<Bytes>, decompress: (Bytes, nat) -> Option<Bytes>, threshold: nat,
    utf8: Bytes -> bool, isType: nat -> bool, isReliable: nat -> bool, isEndpoint: nat -> bool, bits: nat,
    payloadOk: (nat, Bytes) -> bool, typeName: nat -> Bytes, endpointName: nat -> Bytes)

  /** The checksum has 32 bits, type codes do too, and decompression undoes compression. */
  ghost predicate ValidSchema(sch: Schema)
  {
    && (forall x: Bytes :: sch.crc(x) < TWO_32)
    && (forall x: Bytes :: sch.compress(x).Some? ==>
          |sch.compress(x).value| > 0 && sch.decompress(sch.compress(x).value, |x|) == Some(x))
    && (forall c: Bytes, n: nat :: sch.decompress(c, n).Some? ==> |sch.decompress(c, n).value| == n)
    && (forall t: nat :: sch.isType(t) ==> t < TWO_32)
    && (forall e: nat :: sch.isEndpoint(e) ==> e < sch.bits)
  }

  datatype Packet = Packet(ty: nat, endpoints: seq<nat>, sender: Bytes, timestamp: nat, payload: Bytes)

  datatype Header = Header(flags: Byte, number: nat, ack: nat)

  datatype Problem =
    | Short | BadCrc | VarintTooLong | BadEndpoint | EndpointCount | BadSender | BadPayload
    | TypeTooLarge | InvalidType | ControlFrame | InvalidPacket

  const HEADER_BYTES: nat := 9

  const CRC_BYTES: nat := 4

  const UNSEQUENCED: Byte := 0x80

  predicate AckOnly(h: Header)
  {
    h.flags % 2 == 1
  }

  // -------------------------------------------------------------------------
  // Writing
  // -------------------------------------------------------------------------

  /** Compressed if that saves at least two bytes. */
  function Packed(sch: Schema, x: Bytes): (bool, Bytes)
  {
    if |x| < sch.threshold then (false, x)
    else match sch.compress(x)
      case None => (false, x)
      case Some(c) => if |c| + 1 >= |x| then (false, x) else (true, c)
  }

  function FlagByte(payloadPacked: bool, senderPacked: bool): Byte
  {
    (if payloadPacked then 1 else 0) + (if senderPacked then 2 else 0)
  }

  /** The sender's length on the wire follows only if it differs from its real length. */
  function WireLength(sch: Schema, sender: Bytes): Bytes
  {
    if Packed(sch, sender).0 then Uleb128.Encode(|Packed(sch, sender).1|) else []
  }

  function HeadBytes(sch: Schema, p: Packet): Bytes
    requires Popcount(Build(p.endpoints, sch.bits)) < 256
  {
    [FlagByte(Packed(sch, p.payload).0, Packed(sch, p.sender).0), Popcount(Build(p.endpoints, sch.bits))]
    + Uleb128.Encode(p.ty) + Uleb128.Encode(|p.payload|) + Uleb128.Encode(p.timestamp) + Uleb128.Encode(|p.sender|)
    + WireLength(sch, p.sender)
  }

  function HeaderBytes(h: Header): (r: Bytes)
    ensures |r| == HEADER_BYTES
  {
    [h.flags] + Le(h.number, 4) + Le(h.ack, 4)
  }

  function HeaderPart(h: Option<Header>): Bytes
  {
    match h case None => [] case Some(x) => HeaderBytes(x)
  }

  function Body(sch: Schema, p: Packet, h: Option<Header>): Bytes
    requires Popcount(Build(p.endpoints, sch.bits)) < 256
  {
    HeadBytes(sch, p) + Build(p.endpoints, sch.bits) + Packed(sch, p.sender).1 + HeaderPart(h)
        + Packed(sch, p.payload).1
  }

  function Sealed(sch: Schema, data: Bytes): Bytes
  {
    data + Le(sch.crc(data), CRC_BYTES)
  }

  /** Nothing if more than 255 endpoints are selected, which the program asserts against. */
  function EncodeWith(sch: Schema, p: Packet, h: Option<Header>): Option<Bytes>
  {
    if Popcount(Build(p.endpoints, sch.bits)) < 256 then Some(Sealed(sch, Body(sch, p, h))) else None
  }

  /** Reliable types always carry a header; by default it is unsequenced. */
  function Encode(sch: Schema, p: Packet): Option<Bytes>
  {
    EncodeWith(sch, p, if sch.isReliable(p.ty) then Some(Header(UNSEQUENCED, 0, 0)) else None)
  }

  function HeadSize(sch: Schema, p: Packet): nat
  {
    2 + Uleb128.Size(p.ty) + Uleb128.Size(|p.payload|) + Uleb128.Size(p.timestamp) + Uleb128.Size(|p.sender|)
    + if Packed(sch, p.sender).0 then Uleb128.Size(|Packed(sch, p.sender).1|) else 0
  }

  function WireSize(sch: Schema, p: Packet): nat
  {
    HeadSize(sch, p) + MapBytes(sch.bits) + |Packed(sch, p.sender).1|
    + (if sch.isReliable(p.ty) then HEADER_BYTES else 0) + |Packed(sch, p.payload).1| + CRC_BYTES
  }

  // -------------------------------------------------------------------------
  // Reading: the steps
  // -------------------------------------------------------------------------

  function Verified(sch: Schema, buf: Bytes): Result<Bytes, Problem>
  {
    if |buf| < CRC_BYTES then Err(Short)
    else
      var data := buf[..|buf| - CRC_BYTES];
      if sch.crc(data) == ReadLe(buf, |buf| - CRC_BYTES, CRC_BYTES) then Ok(data) else Err(BadCrc)
  }

  /** The fields up to the bitmap, and the offset of the bitmap. */
  datatype Head = Head(
    payloadPacked: bool, senderPacked: bool, count: nat, ty: nat, size: nat, timestamp: nat, senderLen: nat,
    wireLen: nat, off: nat)

  function VarintProblem(r: Uleb128.Read): Problem
  {
    if r.TooLong? then VarintTooLong else Short
  }

  /** The statements every parser of a frame begins with. */
  function ParseHead(data: Bytes): (r: Result<Head, Problem>)
    ensures r.Ok? ==> 2 < r.value.off <= |data| && r.value.ty < TWO_64 && r.value.timestamp < TWO_64
  {
    if |data| < 2 then Err(Short)
    else
      var ty := Uleb128.Decode(data, 2);
      if !ty.Read? then Err(VarintProblem(ty))
      else
        var size := Uleb128.Decode(data, ty.next);
        if !size.Read? then Err(VarintProblem(size))
        else
          var timestamp := Uleb128.Decode(data, size.next);
          if !timestamp.Read? then Err(VarintProblem(timestamp))
          else
            var senderLen := Uleb128.Decode(data, timestamp.next);
            if !senderLen.Read? then Err(VarintProblem(senderLen))
            else
              var packed := data[0] / 2 % 2 == 1;
              var wire := if packed then Uleb128.Decode(data, senderLen.next) else senderLen;
              if !wire.Read? then Err(VarintProblem(wire))
              else Ok(Head(data[0] % 2 == 1, packed, data[1], ty.value, size.value, timestamp.value, senderLen.value,
                           wire.value, wire.next))
  }

  function CheckedType(sch: Schema, ty: nat): Result<nat, Problem>
  {
    if ty >= TWO_32 then Err(TypeTooLarge) else if sch.isType(ty) then Ok(ty) else Err(InvalidType)
  }

  /** Offset of the sender's bytes, and of what follows them. */
  function SenderAt(sch: Schema, head: Head): nat { head.off + MapBytes(sch.bits) }

  function AfterSender(sch: Schema, head: Head): nat { SenderAt(sch, head) + head.wireLen }

  function EndpointsIn(sch: Schema, data: Bytes, head: Head): Result<seq<nat>, Problem>
    requires SenderAt(sch, head) <= |data|
  {
    match Expand(sch.isEndpoint, data[head.off..SenderAt(sch, head)], sch.bits)
    case None => Err(BadEndpoint)
    case Some(eps) => if |eps| == head.count then Ok(eps) else Err(EndpointCount)
  }

  function SenderBytes(sch: Schema, data: Bytes, head: Head): Option<Bytes>
    requires AfterSender(sch, head) <= |data|
  {
    var raw := data[SenderAt(sch, head)..AfterSender(sch, head)];
    if head.senderPacked then sch.decompress(raw, head.senderLen) else Some(raw)
  }

  function SenderIn(sch: Schema, data: Bytes, head: Head): Result<Bytes, Problem>
    requires AfterSender(sch, head) <= |data|
  {
    match SenderBytes(sch, data, head)
    case None => Err(BadSender)
    case Some(name) => if sch.utf8(name) then Ok(name) else Err(BadSender)
  }

  function HeaderAt(data: Bytes, off: nat): Header
    requires off + HEADER_BYTES <= |data|
  {
    Header(data[off], ReadLe(data, off + 1, 4), ReadLe(data, off + 5, 4))
  }

  /** The logical payload from `off` on: that many bytes, or everything that is left, decompressed. */
  function PayloadIn(sch: Schema, data: Bytes, head: Head, off: nat): Result<Bytes, Problem>
    requires off <= |data|
  {
    if !head.payloadPacked then
      (if |data| - off < head.size then Err(Short) else Ok(data[off..off + head.size]))
    else match sch.decompress(data[off..], head.size)
      case None => Err(BadPayload)
      case Some(payload) => Ok(payload)
  }

  function NewPacket(sch: Schema, ty: nat, eps: seq<nat>, sender: Bytes, timestamp: nat, payload: Bytes):
      Result<Packet, Problem>
  {
    if |eps| == 0 || !sch.payloadOk(ty, payload) then Err(InvalidPacket)
    else Ok(Packet(ty, eps, sender, timestamp, payload))
  }

  // -------------------------------------------------------------------------
  // The parsers
  // -------------------------------------------------------------------------

  /** Least number of bytes a full packet needs from the bitmap on. */
  function BytesNeeded(sch: Schema, head: Head): nat
  {
    MapBytes(sch.bits) + head.wireLen + (if sch.isReliable(head.ty) then HEADER_BYTES else 0)
    + if head.payloadPacked then 1 else head.size
  }

  function DecodeData(sch: Schema, data: Bytes): Result<Packet, Problem>
  {
    match ParseHead(data)
    case Err(e) => Err(e)
    case Ok(head) =>
      match CheckedType(sch, head.ty)
      case Err(e) => Err(e)
      case Ok(ty) =>
        if |data| - head.off < BytesNeeded(sch, head) then Err(Short)
        else match EndpointsIn(sch, data, head)
          case Err(e) => Err(e)
          case Ok(eps) =>
            match SenderIn(sch, data, head)
            case Err(e) => Err(e)
            case Ok(sender) =>
              var off := AfterSender(sch, head);
              if sch.isReliable(ty) && AckOnly(HeaderAt(data, off)) then Err(ControlFrame)
              else match PayloadIn(sch, data, head, if sch.isReliable(ty) then off + HEADER_BYTES else off)
                case Err(e) => Err(e)
                case Ok(payload) => NewPacket(sch, ty, eps, sender, head.timestamp, payload)
  }

  function Decode(sch: Schema, buf: Bytes): Result<Packet, Problem>
  {
    match Verified(sch, buf)
    case Err(e) => Err(e)
    case Ok(data) => DecodeData(sch, data)
  }

  datatype Envelope = Envelope(ty: nat, endpoints: seq<nat>, sender: Bytes, timestamp: nat)

  function EnvelopeOfData(sch: Schema, data: Bytes): Result<Envelope, Problem>
  {
    match ParseHead(data)
    case Err(e) => Err(e)
    case Ok(head) =>
      if |data| < AfterSender(sch, head) then Err(Short)
      else match EndpointsIn(sch, data, head)
        case Err(e) => Err(e)
        case Ok(eps) =>
          match SenderIn(sch, data, head)
          case Err(e) => Err(e)
          case Ok(sender) =>
            match CheckedType(sch, head.ty)
            case Err(e) => Err(e)
            case Ok(ty) => Ok(Envelope(ty, eps, sender, head.timestamp))
  }

  function PeekEnvelope(sch: Schema, buf: Bytes): Result<Envelope, Problem>
  {
    match Verified(sch, buf)
    case Err(e) => Err(e)
    case Ok(data) => EnvelopeOfData(sch, data)
  }

  datatype FrameInfo = FrameInfo(envelope: Envelope, header: Option<Header>)

  /** The frame peek has its own copy of the envelope's statements. */
  function FrameInfoOfData(sch: Schema, data: Bytes): Result<FrameInfo, Problem>
  {
    match ParseHead(data)
    case Err(e) => Err(e)
    case Ok(head) =>
      if |data| < AfterSender(sch, head) then Err(Short)
      else match EndpointsIn(sch, data, head)
        case Err(e) => Err(e)
        case Ok(eps) =>
          match SenderIn(sch, data, head)
          case Err(e) => Err(e)
          case Ok(sender) =>
            match CheckedType(sch, head.ty)
            case Err(e) => Err(e)
            case Ok(ty) =>
              var env, off := Envelope(ty, eps, sender, head.timestamp), AfterSender(sch, head);
              if !sch.isReliable(ty) then Ok(FrameInfo(env, None))
              else if |data| < off + HEADER_BYTES then Err(Short)
              else Ok(FrameInfo(env, Some(HeaderAt(data, off))))
  }

  function PeekFrameInfo(sch: Schema, buf: Bytes): Result<FrameInfo, Problem>
  {
    match Verified(sch, buf)
    case Err(e) => Err(e)
    case Ok(data) => FrameInfoOfData(sch, data)
  }

  /** Where the reliable header starts, if the type has one; the checksum is not looked at. */
  function HeaderOffset(sch: Schema, buf: Bytes): Result<Option<nat>, Problem>
  {
    if |buf| < CRC_BYTES + 1 then Err(Short)
    else
      var data := buf[..|buf| - CRC_BYTES];
      match ParseHead(data)
      case Err(e) => Err(e)
      case Ok(head) =>
        if |data| < AfterSender(sch, head) then Err(Short)
        else match CheckedType(sch, head.ty)
          case Err(e) => Err(e)
          case Ok(ty) => Ok(if sch.isReliable(ty) then Some(AfterSender(sch, head)) else None)
  }

  // -------------------------------------------------------------------------
  // Packet IDs
  // -------------------------------------------------------------------------

  const SEED: nat := 0x9E37_79B9_7F4A_7C15

  function HashNames(sch: Schema, h: nat, eps: seq<nat>): nat
    decreases |eps|
  {
    if |eps| == 0 then h else HashNames(sch, HashBytes(h, sch.endpointName(eps[0])), eps[1..])
  }

  function HashTail(sch: Schema, h: nat, timestamp: nat, size: nat, payload: Bytes): nat
  {
    HashBytes(HashBytes(HashBytes(h, Le(timestamp, 8)), Le(size, 8)), payload)
  }

  function PacketId(sch: Schema, p: Packet): nat
  {
    var h := HashBytes(HashBytes(SEED, p.sender), sch.typeName(p.ty));
    HashTail(sch, HashNames(sch, h, p.endpoints), p.timestamp, |p.payload|, p.payload)
  }

  /** Hashes endpoint names straight off the bitmap. */
  function HashBits(sch: Schema, h: nat, bm: Bytes, idx: nat): Option<nat>
    requires idx <= sch.bits
    decreases sch.bits - idx
  {
    if idx == sch.bits then Some(h)
    else if !IsSet(bm, idx) then HashBits(sch, h, bm, idx + 1)
    else if !sch.isEndpoint(idx) then None
    else HashBits(sch, HashBytes(h, sch.endpointName(idx)), bm, idx + 1)
  }

  function IdOfData(sch: Schema, data: Bytes): Result<nat, Problem>
  {
    match ParseHead(data)
    case Err(e) => Err(e)
    case Ok(head) =>
      if |data| < AfterSender(sch, head) then Err(Short)
      else match CheckedType(sch, head.ty)
        case Err(e) => Err(e)
        case Ok(ty) =>
          match SenderBytes(sch, data, head)
          case None => Err(BadSender)
          case Some(sender) =>
            var off := AfterSender(sch, head);
            if sch.isReliable(ty) && |data| < off + HEADER_BYTES then Err(Short)
            else if sch.isReliable(ty) && AckOnly(HeaderAt(data, off)) then Err(ControlFrame)
            else
              var at := if sch.isReliable(ty) then off + HEADER_BYTES else off;
              if head.payloadPacked && |data| - at < 1 then Err(Short)
              else match PayloadIn(sch, data, head, at)
                case Err(e) => Err(e)
                case Ok(payload) =>
                  var h := HashBytes(HashBytes(SEED, sender), sch.typeName(ty));
                  match HashBits(sch, h, data[head.off..SenderAt(sch, head)], 0)
                  case None => Err(BadEndpoint)
                  case Some(h) => Ok(HashTail(sch, h, head.timestamp, head.size, payload))
  }

  function PacketIdFromWire(sch: Schema, buf: Bytes): Result<nat, Problem>
  {
    match Verified(sch, buf)
    case Err(e) => Err(e)
    case Ok(data) => IdOfData(sch, data)
  }

  // -------------------------------------------------------------------------
  // Rewriting the reliable header
  // -------------------------------------------------------------------------

  function Overwritten(buf: Bytes, at: nat, part: Bytes): (r: Bytes)
    requires at + |part| <= |buf|
    ensures |r| == |buf|
  {
    buf[..at] + part + buf[at + |part|..]
  }

  /** The frame after a rewrite, and whether there was a header to rewrite. */
  function Rewritten(sch: Schema, buf: Bytes, h: Header): Result<(bool, Bytes), Problem>
  {
    match HeaderOffset(sch, buf)
    case Err(e) => Err(e)
    case Ok(None) => Ok((false, buf))
    case Ok(Some(off)) =>
      var size := |buf| - CRC_BYTES;
      if size < off + HEADER_BYTES then Err(Short)
      else Ok((true, Sealed(sch, Overwritten(buf[..size], off, HeaderBytes(h)))))
  }
}
