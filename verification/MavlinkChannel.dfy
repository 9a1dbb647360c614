/** A parser channel whose status and message buffer are updated in place. */
module MavlinkChannel {
  import opened Bits
  import opened CrcStep
  import opened Crc
  import opened MavlinkMessages
  import opened MavlinkParser

  class ParserChannel {
    const link: Link
    const rxmsg: MavlinkMessage
    var msgReceived: bool
    var parseError: byte
    var parseState: ParseState
    var packetIdx: byte
    var currentRxSeq: byte
    var currentTxSeq: byte
    var packetRxSuccessCount: word
    var packetRxDropCount: word

    ghost function View(): Channel
      requires rxmsg.Valid()
      reads this, rxmsg, rxmsg.payload64
    {
      Channel(rxmsg.View(), Status(msgReceived, parseState, packetIdx, currentRxSeq, currentTxSeq,
                                   packetRxSuccessCount, packetRxDropCount))
    }

    ghost predicate Valid()
      reads this, rxmsg, rxmsg.payload64
    {
      rxmsg.Valid() && Invariant(link, View()) && parseError == 0
    }

    constructor (link: Link)
      ensures Valid() && Resting(View()) && fresh(rxmsg) && fresh(rxmsg.payload64) && this.link == link
    {
      this.link := link;
      rxmsg := new MavlinkMessage();
      msgReceived, parseError, parseState, packetIdx := false, 0, Uninit, 0;
      currentRxSeq, currentTxSeq, packetRxSuccessCount, packetRxDropCount := 0, 0, 0, 0;
    }

    /** The whole message goes out on this channel, numbered by it. */
    method FinalizeMessage(msg: MavlinkMessage, systemId: byte, componentId: byte, length: byte) returns (size: nat)
      requires Valid() && msg.Valid() && msg != rxmsg && msg.payload64 != rxmsg.payload64
      modifies this`currentTxSeq, msg, msg.payload64
      ensures Valid() && View() == old(View()).(status := old(View()).status.(currentTxSeq := currentTxSeq))
      ensures currentTxSeq == (old(currentTxSeq) + 1) % 0x100
      ensures msg.View() == Finalized(link.accumulate, old(msg.View()), old(currentTxSeq), systemId, componentId,
                                      length, link.extra(old(msg.msgid)))
      ensures size == |Wire(msg.View())|
    {
      currentTxSeq, size := msg.Finalize(link.accumulate, currentTxSeq, systemId, componentId, length,
                                         link.extra(msg.msgid));
    }

    method Update(c: byte)
      requires rxmsg.Valid()
      modifies rxmsg
      ensures rxmsg.View() == old(rxmsg.View()).(checksum := link.accumulate(c, old(rxmsg.checksum)))
    {
      rxmsg.checksum := link.accumulate(c, rxmsg.checksum);
    }

    /** A checksum byte did not match: count the error and see whether the byte starts a new frame. */
    method Reject(c: byte)
      requires rxmsg.Valid() && parseError < 0xff
      modifies this, rxmsg
      ensures View() == Restart(old(View()).(status := old(View()).status.(msgReceived := false)), c)
      ensures parseError == old(parseError) + 1
    {
      parseError := parseError + 1;
      msgReceived := false;
      parseState := Idle;
      if c == MAVLINK_STX {
        parseState := GotStx;
        rxmsg.len := 0;
        rxmsg.checksum := X25_INIT_CRC;
      }
    }

    /** The states before the checksum. */
    method Collect(c: byte)
      requires Valid() && parseState !in {GotPayload, GotCrc1}
      modifies this, rxmsg, rxmsg.payload64
      ensures rxmsg.Valid() && View() == Step(link, old(View()), c) && parseError == old(parseError)
    {
      msgReceived := false;
      match parseState {
        case GotStx =>
          rxmsg.len := c;
          packetIdx := 0;
          Update(c);
          parseState := GotLength;
        case GotLength =>
          rxmsg.seqno := c;
          Update(c);
          parseState := GotSeq;
        case GotSeq =>
          rxmsg.sysid := c;
          Update(c);
          parseState := GotSysid;
        case GotSysid =>
          rxmsg.compid := c;
          Update(c);
          parseState := GotCompid;
        case GotCompid =>
          rxmsg.msgid := c;
          Update(c);
          parseState := if rxmsg.len == 0 then GotPayload else GotMsgid;
        case GotMsgid =>
          rxmsg.payload64[packetIdx] := c;
          packetIdx := (packetIdx + 1) % 0x100;
          Update(c);
          if packetIdx == rxmsg.len {
            parseState := GotPayload;
          }
        case Uninit | Idle =>
          if c == MAVLINK_STX {
            parseState := GotStx;
            rxmsg.len := 0;
            rxmsg.magic := c;
            rxmsg.checksum := X25_INIT_CRC;
          }
      }
    }

    method CheckFirst(c: byte)
      requires Valid() && parseState == GotPayload
      modifies this, rxmsg, rxmsg.payload64
      ensures rxmsg.Valid() && View() == Step(link, old(View()), c)
      ensures parseError == if parseState == GotCrc1 then 0 else 1
    {
      msgReceived := false;
      Update(link.extra(rxmsg.msgid));
      if c != LowByte(rxmsg.checksum) {
        Reject(c);
      } else {
        parseState := GotCrc1;
        rxmsg.payload64[packetIdx] := c;
      }
    }

    method CheckSecond(c: byte, returned: MavlinkMessage)
      requires Valid() && parseState == GotCrc1
      requires returned.Valid() && returned != rxmsg && returned.payload64 != rxmsg.payload64
      modifies this, rxmsg, rxmsg.payload64, returned, returned.payload64
      ensures rxmsg.Valid() && View() == Step(link, old(View()), c)
      ensures returned.View() == if msgReceived then rxmsg.View() else old(returned.View())
      ensures parseError == if msgReceived then 0 else 1
    {
      msgReceived := false;
      if c != HighByte(rxmsg.checksum) {
        Reject(c);
      } else {
        msgReceived := true;
        parseState := Idle;
        rxmsg.payload64[packetIdx + 1] := c;
        returned.CopyFrom(rxmsg);
        CountReceived();
      }
    }

    method CountReceived()
      modifies this`currentRxSeq, this`packetRxDropCount, this`packetRxSuccessCount
      ensures currentRxSeq == rxmsg.seqno
      ensures packetRxDropCount == if old(packetRxSuccessCount) == 0 then 0 else old(packetRxDropCount)
      ensures packetRxSuccessCount == (old(packetRxSuccessCount) + 1) % 0x1_0000
    {
      currentRxSeq := rxmsg.seqno;
      if packetRxSuccessCount == 0 {
        packetRxDropCount := 0;
      }
      packetRxSuccessCount := (packetRxSuccessCount + 1) % 0x1_0000;
    }

    /** One call of mavlink_parse_char; drops is the error count it reports for this call. */
    method ParseChar(c: byte, returned: MavlinkMessage) returns (received: bool, drops: byte)
      requires Valid() && returned.Valid() && returned != rxmsg && returned.payload64 != rxmsg.payload64
      modifies this, rxmsg, rxmsg.payload64, returned, returned.payload64
      ensures Valid() && View() == Step(link, old(View()), c)
      ensures received == View().status.msgReceived
      ensures returned.View() == if received then View().msg else old(returned.View())
      ensures drops == 1 <==> !received && old(parseState) in {GotPayload, GotCrc1} && parseState != GotCrc1
    {
      StepSound(link, View(), c);
      if parseState == GotPayload {
        CheckFirst(c);
      } else if parseState == GotCrc1 {
        CheckSecond(c, returned);
      } else {
        Collect(c);
      }
      drops := parseError;
      parseError := 0;
      received := msgReceived;
    }
  }
}
