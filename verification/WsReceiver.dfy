/** The receivers as the library keeps them: fields of a connection that every byte changes in place. */
module WsReceiver {
  import opened Bits
  import opened WsFrame
  import opened WsReceive

  const LWS_MAX_SOCKET_IO_BUF := 4096

  class Receiver {
    const role: Role
    /** The size for chunks that the protocol gives, or a default. */
    const capacity: nat

    var phase: Phase
    var opcode: nat
    var final: bool
    var binary: bool
    var masked: bool
    var length: nat
    var key: Nonce
    var allZero: bool
    var maskIndex: byte
    const userBuffer: array<byte>
    var head: nat
    var pingPending: bool
    var ping: seq<byte>
    var pingIsClose: bool
    var closing: Closing
    var killed: bool
    var log: seq<Event>

    ghost function Info(): WsReceive.Info
      reads this
    {
      WsReceive.Info(opcode, final, binary, masked, length, key, allZero, maskIndex)
    }

    ghost function View(): WsReceive.View
      reads this
    {
      WsReceive.View(pingPending, ping, pingIsClose, closing, killed, log)
    }

    /** What is in the buffer fits, and the terminator that is put behind a chunk does too. */
    ghost predicate Fits()
      reads this, userBuffer
    {
      && 0 < capacity && head <= capacity
      && userBuffer.Length == LWS_SEND_BUFFER_PRE_PADDING + capacity + LWS_SEND_BUFFER_POST_PADDING
      && Ready(Value())
    }

    ghost predicate Valid()
      reads this, userBuffer
    {
      Fits() && head < capacity
    }

    ghost function Value(): State
      reads this, userBuffer
    {
      var from := LWS_SEND_BUFFER_PRE_PADDING;
      State(phase, Info(), if from + head <= userBuffer.Length then userBuffer[from..from + head] else [], View())
    }

    constructor (role: Role, rxBufferSize: nat)
      ensures Valid() && this.role == role && fresh(userBuffer)
      ensures capacity == if rxBufferSize == 0 then LWS_MAX_SOCKET_IO_BUF else rxBufferSize
      ensures phase == New && head == 0 && !killed && !pingPending && closing == Established && log == []
    {
      this.role := role;
      var n := if rxBufferSize == 0 then LWS_MAX_SOCKET_IO_BUF else rxBufferSize;
      capacity := n;
      phase, opcode, final, binary, masked, length := New, 0, false, false, false, 0;
      key, allZero, maskIndex := [0, 0, 0, 0], false, 0;
      userBuffer := new byte[LWS_SEND_BUFFER_PRE_PADDING + n + LWS_SEND_BUFFER_POST_PADDING];
      head := 0;
      pingPending, ping, pingIsClose, closing, killed, log := false, [], false, Established, false, [];
    }

    /** One byte from the socket. */
    method RxByte(c: byte) returns (ok: bool)
      requires Valid() && !killed
      modifies this, userBuffer
      ensures Valid()
      ensures Value() == Step(role, capacity, old(Value()), c)
      ensures ok <==> !killed
    {
      match phase {
        case New => RxFirst(c);
        case HeaderLength => RxLength(c);
        case Length16(left) => RxLong(c, left, false);
        case Length64(left) => RxLong(c, left, true);
        case CollectKey(index) => RxKey(c, index);
        case Payload => RxPayload(c);
      }
      return !killed;
    }

    method RxFirst(c: byte)
      requires Valid() && phase == New
      modifies this
      ensures Valid()
      ensures Value() == First(role, old(Value()), c)
    {
      if role == Server {
        allZero := true;
      }
      opcode := c % 16;
      final := c / 128 == 1;
      if opcode == TEXT || opcode == BINARY {
        binary := opcode == BINARY;
      }
      phase := HeaderLength;
    }

    method RxLength(c: byte)
      requires Valid() && phase == HeaderLength
      modifies this
      ensures Valid()
      ensures Value() == ShortLength(role, old(Value()), c)
    {
      masked := c / 128 == 1;
      if c % 128 == 126 || c % 128 == 127 {
        if opcode / 8 % 2 == 1 {
          killed := true;
        } else {
          phase := if c % 128 == 126 then Length16(2) else Length64(8);
        }
      } else {
        length := if role == Server then c % 128 else c;
        AfterLength(false);
      }
    }

    method RxLong(c: byte, left: nat, wide: bool)
      requires Valid() && phase == (if wide then Length64(left) else Length16(left))
      modifies this
      ensures Valid()
      ensures Value() == LongLength(role, old(Value()), c)
    {
      if wide && left == 8 && c >= 128 {
        killed := true;
        return;
      }
      if left == (if wide then 8 else 2) {
        length := 0;
      }
      length := length + c * Pow256(left - 1);
      if left == 1 {
        AfterLength(true);
      } else {
        phase := if wide then Length64(left - 1) else Length16(left - 1);
      }
    }

    method AfterLength(extended: bool)
      requires Valid()
      modifies this
      ensures Valid()
      ensures Value() == Measured(role, old(Value()), extended)
    {
      if masked {
        phase := CollectKey(0);
      } else if role == Server && extended {
        phase := Payload;
      } else {
        EndHeader();
      }
    }

    method RxKey(c: byte, index: nat)
      requires Valid() && phase == CollectKey(index)
      modifies this
      ensures Valid()
      ensures Value() == KeyByte(role, old(Value()), c)
    {
      StoreKey(c, index);
      if index < 3 {
        phase := CollectKey(index + 1);
      } else {
        AfterKey();
      }
    }

    method StoreKey(c: byte, index: nat)
      requires index < 4
      modifies this`key, this`allZero
      ensures Info() == old(Info()).(key := old(key)[index := c], allZero := old(allZero) && c == 0)
    {
      key := key[index := c];
      if c != 0 {
        allZero := false;
      }
    }

    method AfterKey()
      requires Valid()
      modifies this
      ensures Valid()
      ensures Value() == var t := old(Value()).(info := if role == Server then old(Info()).(maskIndex := 0) else old(Info()));
                         if old(length) != 0 then t.(phase := Payload) else Spill(role, t.(phase := New))
    {
      maskIndex := if role == Server then 0 else maskIndex;
      EndHeader();
    }

    method EndHeader()
      requires Valid()
      modifies this`phase, this`head, this`pingPending, this`ping, this`pingIsClose, this`closing, this`killed, this`log
      ensures Valid()
      ensures Value() == if length != 0 then old(Value()).(phase := Payload) else Spill(role, old(Value()).(phase := New))
    {
      if length != 0 {
        phase := Payload;
      } else {
        phase := New;
        SpillBuffer(head);
      }
    }

    method RxPayload(c: byte)
      requires Valid() && phase == Payload
      modifies this, userBuffer
      ensures Valid()
      ensures Value() == PayloadByte(role, capacity, old(Value()), c)
    {
      var b := c;
      var index := maskIndex;
      if !allZero && (role == Server || masked) {
        b := XorByte(c, key[maskIndex % 4]);
        index := (maskIndex + 1) % 256;
      }
      PutByte(b, index);
    }

    /** Puts a byte of payload into the buffer, and spills the buffer if it is full or the frame complete. */
    method PutByte(b: byte, index: byte)
      requires Valid() && phase == Payload && index == NextIndex(role, Info())
      modifies this, userBuffer
      ensures Valid()
      ensures Value() == Take(role, capacity, old(Value()), b)
    {
      ghost var before := Value();
      Store(b, index);
      assert Value() == before.(buffer := before.buffer + [b],
                                info := before.info.(maskIndex := index, length := length));
      SpillIfDue();
    }

    /** At the end of the frame and when the buffer is full. */
    method SpillIfDue()
      requires Fits()
      modifies this
      ensures Valid()
      ensures Value() == if old(length) == 0 then Spill(role, old(Value()).(phase := New))
                         else if old(head) == capacity then Spill(role, old(Value()))
                         else old(Value())
    {
      if length == 0 {
        phase := New;
        SpillBuffer(head);
      } else if head == capacity {
        SpillBuffer(head);
      }
    }

    method Store(b: byte, index: byte)
      requires Valid()
      modifies this`head, this`maskIndex, this`length, userBuffer
      ensures Fits()
      ensures head == old(head) + 1 && Value().buffer == old(Value()).buffer + [b] && maskIndex == index
      ensures length == if old(length) > 0 then old(length) - 1 else 0xFFFF_FFFF_FFFF_FFFF
    {
      ghost var from, before := LWS_SEND_BUFFER_PRE_PADDING, Value().buffer;
      userBuffer[LWS_SEND_BUFFER_PRE_PADDING + head] := b;
      head := head + 1;
      maskIndex := index;
      length := if length > 0 then length - 1 else 0xFFFF_FFFF_FFFF_FFFF;
      assert userBuffer[from..from + head] == before + [b];
    }

    /** Serves what is in the buffer, and empties it. */
    method SpillBuffer(filled: nat)
      requires 0 < capacity && filled <= capacity
      requires userBuffer.Length == LWS_SEND_BUFFER_PRE_PADDING + capacity + LWS_SEND_BUFFER_POST_PADDING
      modifies this`head, this`pingPending, this`ping, this`pingIsClose, this`closing, this`killed, this`log
      ensures head == 0
      ensures View() == Serve(role, old(Info()), old(View()),
                              old(userBuffer[LWS_SEND_BUFFER_PRE_PADDING..LWS_SEND_BUFFER_PRE_PADDING + filled]))
    {
      var data := userBuffer[LWS_SEND_BUFFER_PRE_PADDING..LWS_SEND_BUFFER_PRE_PADDING + filled];
      head := 0;
      if opcode == CLOSE {
        if closing == AwaitingCloseAck {
          killed := true;
        } else if role == Client {
          closing := ReturnedCloseAlready;
          killed := true;
        } else if closing == ReturnedCloseAlready {
          killed := true;
        } else {
          closing := ReturnedCloseAlready;
          pingIsClose := true;
          StashPing(data);
        }
      } else if opcode == PING {
        if !pingPending {
          StashPing(data);
        }
      } else if opcode == PONG {
        if role == Client {
          log := log + [ReceivePong(data)];
        }
      } else if opcode == TEXT || opcode == BINARY || opcode == CONTINUATION {
        if |data| > 0 {
          log := log + [Receive(data, length, binary, final)];
        }
      }
    }

    method StashPing(data: seq<byte>)
      modifies this`ping, this`pingPending
      ensures View() == Stash(old(View()), data)
    {
      if |data| <= 128 - 4 {
        ping := data;
        pingPending := true;
      }
    }
  }
}
