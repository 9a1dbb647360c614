/** MAVLink 1.0 messages, their finalisation and their wire form (inc/mavlink/mavlink_helpers.h). */
module MavlinkMessages {
  import opened Bits
  import opened CrcStep
  import opened Crc

  const MAVLINK_STX: byte := 254
  const NUM_HEADER_BYTES := 6

  /** payload64 is an array of 33 eight-byte words: up to 255 payload bytes, checksum, and padding. */
  const PAYLOAD_BUFFER_LEN := 264

  /** What both ends of a link must agree on: the checksum step and the CRC_EXTRA byte of every id. */
  datatype Link = Link(accumulate: Accumulator, extra: byte -> byte)

  datatype MessageData = MessageData(checksum: word, magic: byte, len: byte, seqno: byte,
                                     sysid: byte, compid: byte, msgid: byte, buffer: seq<byte>)
  type Message = m: MessageData | |m.buffer| == PAYLOAD_BUFFER_LEN
    witness MessageData(0, 0, 0, 0, 0, 0, 0, seq(PAYLOAD_BUFFER_LEN, _ => 0))

  function Header(m: Message): seq<byte> {
    [m.magic, m.len, m.seqno, m.sysid, m.compid, m.msgid]
  }

  function Payload(m: Message): seq<byte> {
    m.buffer[..m.len]
  }

  /** Everything of a frame that precedes its two checksum bytes. */
  function Body(m: Message): seq<byte> {
    Header(m) + Payload(m)
  }

  function Wire(m: Message): seq<byte> {
    Body(m) + [LowByte(m.checksum), HighByte(m.checksum)]
  }

  /** The checksum of a frame body: every byte after the start marker, then the extra byte. */
  function BodyCrc(acc: Accumulator, extraByte: byte, body: seq<byte>): word
    requires |body| > 0
  {
    acc(extraByte, AccumulateAll(acc, X25_INIT_CRC, body[1..]))
  }

  predicate WellFormed(link: Link, m: Message) {
    m.magic == MAVLINK_STX && m.checksum == BodyCrc(link.accumulate, link.extra(m.msgid), Body(m))
  }

  /** A frame body as it stands on the wire: start marker, length, and as many bytes as announced. */
  predicate BodyShape(body: seq<byte>) {
    |body| >= NUM_HEADER_BYTES && body[0] == MAVLINK_STX && |body| == NUM_HEADER_BYTES + body[1]
  }

  /** Same header, checksum and payload; the rest of the buffer may differ. */
  predicate SameMessage(a: Message, b: Message) {
    Header(a) == Header(b) && a.checksum == b.checksum && Payload(a) == Payload(b)
  }

  lemma {:induction false} WireDetermines(a: Message, b: Message)
    requires Wire(a) == Wire(b)
    ensures SameMessage(a, b)
  {
    var ca, cb := [LowByte(a.checksum), HighByte(a.checksum)], [LowByte(b.checksum), HighByte(b.checksum)];
    assert Wire(a) == Header(a) + (Payload(a) + ca);
    assert Wire(b) == Header(b) + (Payload(b) + cb);
    SplitConcat(Header(a), Payload(a) + ca, Header(b), Payload(b) + cb);
    assert Header(a)[1] == a.len && Header(b)[1] == b.len;
    SplitConcat(Payload(a), ca, Payload(b), cb);
    assert ca[0] == cb[0] && ca[1] == cb[1];
    BytesDetermineChecksum(a.checksum, b.checksum);
  }

  lemma {:induction false} SplitConcat<T>(a: seq<T>, x: seq<T>, b: seq<T>, y: seq<T>)
    requires a + x == b + y && |a| == |b|
    ensures a == b && x == y
  {
    assert a == (a + x)[..|a|] == (b + y)[..|b|] == b;
    assert x == (a + x)[|a|..] == (b + y)[|b|..] == y;
  }

  lemma {:induction false} BytesDetermineChecksum(a: word, b: word)
    requires LowByte(a) == LowByte(b) && HighByte(a) == HighByte(b)
    ensures a == b
  {
  }

  /** What finalising leaves in a message whose id and payload are already set. */
  function Finalized(acc: Accumulator, m: Message, seqno: byte, systemId: byte, componentId: byte, length: byte, extraByte: byte): Message {
    var h := m.(magic := MAVLINK_STX, len := length, sysid := systemId, compid := componentId, seqno := seqno);
    var crc := BodyCrc(acc, extraByte, Body(h));
    h.(checksum := crc, buffer := m.buffer[length := LowByte(crc)][length + 1 := HighByte(crc)])
  }

  /** A finalised message is well formed, and only its header, checksum and check bytes were written. */
  lemma {:induction false} FinalizedWellFormed(link: Link, m: Message, seqno: byte, systemId: byte, componentId: byte, length: byte)
    ensures var r := Finalized(link.accumulate, m, seqno, systemId, componentId, length, link.extra(m.msgid));
            && WellFormed(link, r) && Payload(r) == m.buffer[..length]
            && Header(r) == [MAVLINK_STX, length, seqno, systemId, componentId, m.msgid]
            && r.buffer[length + 2..] == m.buffer[length + 2..]
  {
    var h := m.(magic := MAVLINK_STX, len := length, sysid := systemId, compid := componentId, seqno := seqno);
    var r := Finalized(link.accumulate, m, seqno, systemId, componentId, length, link.extra(m.msgid));
    assert Payload(r) == Payload(h) == m.buffer[..length];
    assert Body(r) == Body(h);
  }

  /** The checksum is accumulated over the core header, then the payload, then the extra byte. */
  lemma {:induction false} BodyCrcInParts(acc: Accumulator, extraByte: byte, m: Message, header: word)
    requires header == AccumulateAll(acc, X25_INIT_CRC, Header(m)[1..])
    ensures BodyCrc(acc, extraByte, Body(m)) == acc(extraByte, AccumulateAll(acc, header, Payload(m)))
  {
    assert Body(m)[1..] == Header(m)[1..] + Payload(m);
    AccumulateConcat(acc, X25_INIT_CRC, Header(m)[1..], Payload(m));
  }

  class MavlinkMessage {
    var checksum: word
    var magic: byte
    var len: byte
    var seqno: byte
    var sysid: byte
    var compid: byte
    var msgid: byte
    const payload64: array<byte>

    ghost predicate Valid()
      reads this
    {
      payload64.Length == PAYLOAD_BUFFER_LEN
    }

    ghost function View(): Message
      requires Valid()
      reads this, payload64
    {
      MessageData(checksum, magic, len, seqno, sysid, compid, msgid, payload64[..])
    }

    constructor ()
      ensures Valid() && fresh(payload64)
    {
      payload64 := new byte[PAYLOAD_BUFFER_LEN];
    }

    method CopyFrom(other: MavlinkMessage)
      requires Valid() && other.Valid() && payload64 != other.payload64
      modifies this, payload64
      ensures View() == old(other.View())
    {
      checksum, magic, len, seqno := other.checksum, other.magic, other.len, other.seqno;
      sysid, compid, msgid := other.sysid, other.compid, other.msgid;
      forall i | 0 <= i < PAYLOAD_BUFFER_LEN { payload64[i] := other.payload64[i]; }
      assert payload64[..] == old(other.payload64[..]);
    }

    /** mavlink_finalize_message_chan, given the sequence number of the channel. */
    method Finalize(acc: Accumulator, currentTxSeq: byte, systemId: byte, componentId: byte, length: byte,
                    extraByte: byte)
        returns (nextTxSeq: byte, size: nat)
      requires Valid()
      modifies this, payload64
      ensures View() == Finalized(acc, old(View()), currentTxSeq, systemId, componentId, length, extraByte)
      ensures nextTxSeq == (currentTxSeq + 1) % 0x100 && size == |Wire(View())|
    {
      magic := MAVLINK_STX;
      len := length;
      sysid := systemId;
      compid := componentId;
      seqno := currentTxSeq;
      nextTxSeq := (currentTxSeq + 1) % 0x100;
      ghost var h := View();
      checksum := CrcCalculate(acc, [len, seqno, sysid, compid, msgid]);
      assert Header(h)[1..] == [len, seqno, sysid, compid, msgid];
      BodyCrcInParts(acc, extraByte, h, checksum);
      checksum := CrcAccumulateBuffer(acc, checksum, payload64[..len]);
      checksum := acc(extraByte, checksum);
      payload64[len] := LowByte(checksum);
      payload64[len + 1] := HighByte(checksum);
      size := NUM_HEADER_BYTES + length + 2;
    }

    /** mavlink_msg_to_send_buffer: header and payload are contiguous in the packed struct. */
    method ToSendBuffer(buffer: array<byte>) returns (n: nat)
      requires Valid() && buffer != payload64 && buffer.Length >= |Wire(View())|
      modifies buffer
      ensures View() == old(View())
      ensures n == |Wire(View())| && buffer[..] == Wire(View()) + old(buffer[n..])
    {
      ghost var m := View();
      var body := [magic, len, seqno, sysid, compid, msgid] + payload64[..len];
      assert body == Body(m);
      var ck := [LowByte(checksum), HighByte(checksum)];
      n := WritePacket(buffer, body, ck);
      assert View() == m;
      assert Wire(m) == body + ck;
      assert buffer[..] == Wire(m) + old(buffer[n..]);
    }
  }

  method WritePacket(buffer: array<byte>, body: seq<byte>, ck: seq<byte>) returns (n: nat)
    requires |body| + |ck| <= buffer.Length
    modifies buffer
    ensures n == |body| + |ck| && buffer[..] == body + ck + old(buffer[n..])
  {
    Memcpy(buffer, 0, body);
    Memcpy(buffer, |body|, ck);
    n := |body| + |ck|;
    assert buffer[|body|..n] == ck;
  }

  method Memcpy(target: array<byte>, at: nat, source: seq<byte>)
    requires at + |source| <= target.Length
    modifies target
    ensures target[..] == old(target[..at]) + source + old(target[at + |source|..])
  {
    forall i | 0 <= i < |source| { target[at + i] := source[i]; }
  }
}
