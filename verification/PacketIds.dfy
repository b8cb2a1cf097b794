/** What a packet's ID depends on, and which packets it always tells apart. */
module PacketIds {
  import opened LittleEndian
  import opened PacketHash
  import opened WireFrame

  /** The endpoints' names, one after the other. */
  function NamesOf(sch: Schema, eps: seq<nat>): Bytes
  {
    if |eps| == 0 then [] else sch.endpointName(eps[0]) + NamesOf(sch, eps[1..])
  }

  /** Everything of a packet that enters its ID, in order. */
  function IdBytes(sch: Schema, p: Packet): Bytes
  {
    p.sender + sch.typeName(p.ty) + NamesOf(sch, p.endpoints) + Le(p.timestamp, 8) + Le(|p.payload|, 8) + p.payload
  }

  lemma {:induction false} NamesHashed(sch: Schema, h: nat, eps: seq<nat>)
    ensures HashNames(sch, h, eps) == HashBytes(h, NamesOf(sch, eps))
    decreases |eps|
  {
    hide HashBytes;
    if |eps| == 0 {
      NothingHashed(h);
    } else {
      NamesHashed(sch, HashBytes(h, sch.endpointName(eps[0])), eps[1..]);
      HashOfConcat(h, sch.endpointName(eps[0]), NamesOf(sch, eps[1..]));
    }
  }

  lemma {:induction false} NothingHashed(h: nat)
    ensures HashBytes(h, []) == h
  {
  }

  /** A packet's ID is one hash, from the seed, over all its parts joined. */
  lemma {:induction false} IdIsHash(sch: Schema, p: Packet)
    ensures PacketId(sch, p) == HashBytes(SEED, IdBytes(sch, p))
  {
    hide HashBytes, HashNames, Le;
    var a, b, c, d, e := p.sender, sch.typeName(p.ty), NamesOf(sch, p.endpoints), Le(p.timestamp, 8),
                         Le(|p.payload|, 8);
    HashOfConcat(SEED, a, b);
    NamesHashed(sch, HashBytes(SEED, a + b), p.endpoints);
    HashOfConcat(SEED, a + b, c);
    HashOfConcat(SEED, a + b + c, d);
    HashOfConcat(SEED, a + b + c + d, e);
    HashOfConcat(SEED, a + b + c + d + e, p.payload);
  }

  /**
    How an ID comes about: a list of states that begins with the seed, goes on by the source's three statements
    for each byte of the sender, the type's name, the endpoints' names, the time, the size and the payload, and
    ends with the ID.
   */
  lemma {:induction false} IdByStates(sch: Schema, p: Packet) returns (hs: seq<nat>)
    ensures var bytes := p.sender + sch.typeName(p.ty) + NamesOf(sch, p.endpoints) + Le(p.timestamp, 8)
                         + Le(|p.payload|, 8) + p.payload;
            && HashRun(hs, 0x9E37_79B9_7F4A_7C15, bytes) && hs[|bytes|] == PacketId(sch, p)
  {
    hide HashBytes, HashRun, Le, PacketId;
    hs := HashHasRun(SEED, IdBytes(sch, p));
    IdIsHash(sch, p);
  }

  /** Packets that differ in exactly one byte of the payload have different IDs. */
  lemma {:induction false} PayloadByteTells(sch: Schema, p: Packet, i: nat, b: Byte)
    requires i < |p.payload| && b != p.payload[i]
    ensures PacketId(sch, p.(payload := p.payload[i := b])) != PacketId(sch, p)
  {
    hide HashBytes, Le, NamesOf, PacketId;
    var q := p.(payload := p.payload[i := b]);
    var front, back := p.payload[..i], p.payload[i + 1..];
    var head := p.sender + sch.typeName(p.ty) + NamesOf(sch, p.endpoints) + Le(p.timestamp, 8) + Le(|p.payload|, 8);
    assert p.payload == front + [p.payload[i]] + back && q.payload == front + [b] + back;
    assert IdBytes(sch, p) == head + front + [p.payload[i]] + back;
    assert IdBytes(sch, q) == head + front + [b] + back;
    IdIsHash(sch, p);
    IdIsHash(sch, q);
    OneByteTells(SEED, head + front, b, p.payload[i], back);
  }

  /** So do packets that differ in exactly one byte of the sender's name. */
  lemma {:induction false} SenderByteTells(sch: Schema, p: Packet, i: nat, b: Byte)
    requires i < |p.sender| && b != p.sender[i]
    ensures PacketId(sch, p.(sender := p.sender[i := b])) != PacketId(sch, p)
  {
    hide HashBytes, Le, NamesOf, PacketId;
    var q := p.(sender := p.sender[i := b]);
    var front, rest := p.sender[..i], p.sender[i + 1..];
    var tail := sch.typeName(p.ty) + NamesOf(sch, p.endpoints) + Le(p.timestamp, 8) + Le(|p.payload|, 8) + p.payload;
    assert p.sender == front + [p.sender[i]] + rest && q.sender == front + [b] + rest;
    assert IdBytes(sch, p) == front + [p.sender[i]] + (rest + tail);
    assert IdBytes(sch, q) == front + [b] + (rest + tail);
    IdIsHash(sch, p);
    IdIsHash(sch, q);
    OneByteTells(SEED, front, b, p.sender[i], rest + tail);
  }

  /** The hash runs over the joined parts, so it cannot tell where one ends and the next begins. */
  lemma {:induction false} SplitIsNotHashed(sch: Schema, p: Packet, q: Packet)
    requires p.sender + sch.typeName(p.ty) == q.sender + sch.typeName(q.ty)
    requires p.endpoints == q.endpoints && p.timestamp == q.timestamp && p.payload == q.payload
    ensures PacketId(sch, p) == PacketId(sch, q)
  {
    hide HashBytes, Le, NamesOf, PacketId;
    IdIsHash(sch, p);
    IdIsHash(sch, q);
  }
}
