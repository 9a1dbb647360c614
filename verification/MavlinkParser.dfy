/** The byte-at-a-time MAVLink parser (mavlink_parse_char in inc/mavlink/mavlink_helpers.h). */
module MavlinkParser {
  import opened Bits
  import opened CrcStep
  import opened Crc
  import opened MavlinkMessages

  datatype ParseState = Uninit | Idle | GotStx | GotSeq | GotLength | GotSysid
                      | GotCompid | GotMsgid | GotPayload | GotCrc1

  datatype Status = Status(msgReceived: bool, state: ParseState, packetIdx: byte, currentRxSeq: byte,
                           currentTxSeq: byte, successCount: word, dropCount: word)

  datatype Channel = Channel(msg: Message, status: Status)

  predicate Resting(ch: Channel) {
    ch.status.state.Uninit? || ch.status.state.Idle?
  }

  /** The frame bytes read so far, as the parser's own fields remember them. */
  function Pending(ch: Channel): seq<byte> {
    var m := ch.msg;
    match ch.status.state
    case Uninit | Idle => []
    case GotStx => [m.magic]
    case GotLength => [m.magic, m.len]
    case GotSeq => [m.magic, m.len, m.seqno]
    case GotSysid => [m.magic, m.len, m.seqno, m.sysid]
    case GotCompid => [m.magic, m.len, m.seqno, m.sysid, m.compid]
    case GotMsgid => Header(m) + m.buffer[..ch.status.packetIdx]
    case GotPayload => Body(m)
    case GotCrc1 => Body(m) + [LowByte(m.checksum)]
  }

  /** What every call of the parser keeps. */
  predicate Invariant(link: Link, ch: Channel) {
    var m, idx := ch.msg, ch.status.packetIdx;
    && (!Resting(ch) ==> m.magic == MAVLINK_STX)
    && (ch.status.state.GotMsgid? ==> idx < m.len)
    && (ch.status.state in {GotLength, GotSeq, GotSysid, GotCompid} ==> idx == 0)
    && (ch.status.state in {GotPayload, GotCrc1} ==> idx == m.len)
    && (if ch.status.state.GotCrc1? then m.checksum == BodyCrc(link.accumulate, link.extra(m.msgid), Body(m))
        else !Resting(ch) ==> m.checksum == AccumulateAll(link.accumulate, X25_INIT_CRC, Pending(ch)[1..]))
  }

  function Restart(ch: Channel, c: byte): Channel {
    if c == MAVLINK_STX then
      Channel(ch.msg.(len := 0, checksum := X25_INIT_CRC), ch.status.(state := GotStx))
    else
      Channel(ch.msg, ch.status.(state := Idle))
  }

  /** One call of the parser. The eight-bit packetIdx cannot leave the payload buffer. */
  function Step(link: Link, before: Channel, c: byte): Channel {
    var m, st := before.msg, before.status.(msgReceived := false);
    var summed := m.(checksum := link.accumulate(c, m.checksum));
    match st.state
    case Uninit | Idle =>
      if c == MAVLINK_STX then Channel(m.(len := 0, magic := c, checksum := X25_INIT_CRC), st.(state := GotStx))
      else Channel(m, st)
    case GotStx => Channel(summed.(len := c), st.(packetIdx := 0, state := GotLength))
    case GotLength => Channel(summed.(seqno := c), st.(state := GotSeq))
    case GotSeq => Channel(summed.(sysid := c), st.(state := GotSysid))
    case GotSysid => Channel(summed.(compid := c), st.(state := GotCompid))
    case GotCompid =>
      Channel(summed.(msgid := c), st.(state := if m.len == 0 then GotPayload else GotMsgid))
    case GotMsgid =>
      var idx := (st.packetIdx + 1) % 0x100;
      Channel(summed.(buffer := m.buffer[st.packetIdx := c]),
              st.(packetIdx := idx, state := if idx == m.len then GotPayload else GotMsgid))
    case GotPayload =>
      var crc := link.accumulate(link.extra(m.msgid), m.checksum);
      if c != LowByte(crc) then Restart(Channel(m.(checksum := crc), st), c)
      else Channel(m.(checksum := crc, buffer := m.buffer[st.packetIdx := c]), st.(state := GotCrc1))
    case GotCrc1 =>
      if c != HighByte(m.checksum) then Restart(Channel(m, st), c)
      else Channel(m.(buffer := m.buffer[st.packetIdx + 1 := c]),
                   st.(state := Idle, msgReceived := true, currentRxSeq := m.seqno,
                       dropCount := if st.successCount == 0 then 0 else st.dropCount,
                       successCount := (st.successCount + 1) % 0x1_0000))
  }

  // ----- One step, phase by phase

  /** Between the start marker and the checksum every byte is taken as it comes. */
  predicate Collecting(ch: Channel) {
    !Resting(ch) && !ch.status.state.GotPayload? && !ch.status.state.GotCrc1?
  }

  lemma {:induction false} StepResting(link: Link, ch: Channel, c: byte)
    requires Invariant(link, ch) && Resting(ch)
    ensures var ch' := Step(link, ch, c);
            Invariant(link, ch') && !ch'.status.msgReceived && Pending(ch') == if c == MAVLINK_STX then [c] else []
  {
  }

  lemma {:induction false} StepStoresPayload(m: Message, idx: nat, c: byte)
    requires idx < PAYLOAD_BUFFER_LEN
    ensures Header(m) + m.buffer[idx := c][..idx + 1] == Header(m) + m.buffer[..idx] + [c]
  {
    assert m.buffer[idx := c][..idx + 1] == m.buffer[..idx] + [c];
  }

  lemma {:induction false} StepCollecting(link: Link, ch: Channel, c: byte)
    requires Invariant(link, ch) && Collecting(ch)
    ensures var ch' := Step(link, ch, c);
            !Resting(ch') && !ch'.status.msgReceived && Pending(ch') == Pending(ch) + [c]
  {
    if ch.status.state.GotMsgid? {
      StepStoresPayload(ch.msg, ch.status.packetIdx, c);
    }
  }

  lemma {:induction false} StepCollectingInvariant(link: Link, ch: Channel, c: byte)
    requires Invariant(link, ch) && Collecting(ch)
    ensures Invariant(link, Step(link, ch, c))
  {
    StepCollecting(link, ch, c);
    var p := Pending(ch);
    assert (p + [c])[1..] == p[1..] + [c];
    AccumulateSnoc(link.accumulate, X25_INIT_CRC, p[1..], c);
  }

  /** The first checksum byte is kept when it matches and otherwise read as a possible start marker. */
  lemma {:induction false} StepFirstCheck(link: Link, ch: Channel, c: byte)
    requires Invariant(link, ch) && ch.status.state.GotPayload?
    ensures var ch' := Step(link, ch, c);
            && Invariant(link, ch') && !ch'.status.msgReceived
            && Pending(ch') == if c == LowByte(BodyCrc(link.accumulate, link.extra(ch.msg.msgid), Body(ch.msg))) then Pending(ch) + [c]
                               else if c == MAVLINK_STX then [c] else []
  {
    assert Body(ch.msg) == Pending(ch);
  }

  lemma {:induction false} StepSecondCheck(link: Link, ch: Channel, c: byte)
    requires Invariant(link, ch) && ch.status.state.GotCrc1?
    ensures var ch' := Step(link, ch, c);
            && Invariant(link, ch')
            && ch'.status.msgReceived == (c == HighByte(ch.msg.checksum))
            && Pending(ch') == (if c != HighByte(ch.msg.checksum) && c == MAVLINK_STX then [c] else [])
            && (ch'.status.msgReceived ==> WellFormed(link, ch'.msg) && Wire(ch'.msg) == Pending(ch) + [c])
  {
    if c == HighByte(ch.msg.checksum) {
      var ch' := Step(link, ch, c);
      assert Payload(ch'.msg) == Payload(ch.msg);
      assert Header(ch'.msg) == Header(ch.msg);
      assert Wire(ch'.msg) == Pending(ch) + [c];
    }
  }

  /** Every call keeps the invariant; what is pending grows by the byte, restarts, or is delivered. */
  lemma {:induction false} StepSound(link: Link, ch: Channel, c: byte)
    requires Invariant(link, ch)
    ensures var ch' := Step(link, ch, c);
            && Invariant(link, ch')
            && (Pending(ch') == Pending(ch) + [c] || Pending(ch') == [] || Pending(ch') == [c])
            && (ch'.status.msgReceived ==>
                  && Pending(ch') == [] && WellFormed(link, ch'.msg) && Wire(ch'.msg) == Pending(ch) + [c])
  {
    if Resting(ch) {
      StepResting(link, ch, c);
    } else if Collecting(ch) {
      StepCollecting(link, ch, c);
      StepCollectingInvariant(link, ch, c);
    } else if ch.status.state.GotPayload? {
      StepFirstCheck(link, ch, c);
    } else {
      StepSecondCheck(link, ch, c);
    }
  }
}
