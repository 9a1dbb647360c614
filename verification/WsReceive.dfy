/** The byte-driven receivers of frames: one for servers and one for clients. */
module WsReceive {
  import opened Bits
  import opened WsFrame

  datatype Role = Server | Client

  /** What the next byte is taken for. Length bytes count down to the lowest, key bytes up. */
  datatype Phase =
    | New
    | HeaderLength
    | Length16(left: nat)
    | Length64(left: nat)
    | CollectKey(index: nat)
    | Payload

  /** What is known of the frame that is coming in. */
  datatype Info = Info(
    opcode: nat,
    final: bool,
    binary: bool,
    masked: bool,
    length: nat,
    key: Nonce,
    allZero: bool,
    maskIndex: byte)

  datatype Closing = Established | AwaitingCloseAck | ReturnedCloseAlready

  /** What is handed to the user: a chunk of payload with the bytes of its frame still to come, or a pong. */
  datatype Event =
    | Receive(data: seq<byte>, remaining: nat, binary: bool, final: bool)
    | ReceivePong(data: seq<byte>)

  /** What the frames have led to: a ping to be answered, the state of the connection, and what was handed up. */
  datatype View = View(
    pingPending: bool,
    ping: seq<byte>,
    pingIsClose: bool,
    closing: Closing,
    killed: bool,
    log: seq<Event>)

  datatype State = State(phase: Phase, info: Info, buffer: seq<byte>, view: View)

  // ----- A chunk is complete

  /** A ping, or a close in its guise, is kept to be answered, if it is not too long. */
  function Stash(v: View, data: seq<byte>): View {
    if |data| > 128 - 4 then v else v.(ping := data, pingPending := true)
  }

  function Deliver(info: Info, v: View, data: seq<byte>): View {
    if data == [] then v else v.(log := v.log + [Receive(data, info.length, info.binary, info.final)])
  }

  function Serve(role: Role, info: Info, v: View, data: seq<byte>): View {
    if info.opcode == CLOSE then
      if v.closing == AwaitingCloseAck then v.(killed := true)
      else if role == Client then v.(closing := ReturnedCloseAlready, killed := true)
      else if v.closing == ReturnedCloseAlready then v.(killed := true)
      else Stash(v.(closing := ReturnedCloseAlready, pingIsClose := true), data)
    else if info.opcode == PING then
      if v.pingPending then v else Stash(v, data)
    else if info.opcode == PONG then
      if role == Server then v else v.(log := v.log + [ReceivePong(data)])
    else if IsData(info.opcode) then Deliver(info, v, data)
    else v
  }

  function Spill(role: Role, s: State): State {
    s.(buffer := [], view := Serve(role, s.info, s.view, s.buffer))
  }

  // ----- One byte

  predicate Ready(s: State) {
    match s.phase
    case Length16(left) => 0 < left <= 2
    case Length64(left) => 0 < left <= 8
    case CollectKey(index) => index < 4
    case _ => true
  }

  function Kill(s: State): State { s.(view := s.view.(killed := true)) }

  function First(role: Role, s: State, c: byte): State {
    var i := s.info;
    var opcode := c % 16;
    s.(phase := HeaderLength,
       info := i.(opcode := opcode, final := c >= 128,
                  binary := if opcode == TEXT || opcode == BINARY then opcode == BINARY else i.binary,
                  allZero := if role == Server then true else i.allZero))
  }

  /** After the length: the key, the payload, or the end of an empty frame. The server overlooks empty extended lengths. */
  function Measured(role: Role, s: State, extended: bool): (t: State)
    ensures Ready(t)
  {
    if s.info.masked then s.(phase := CollectKey(0))
    else if s.info.length != 0 || (role == Server && extended) then s.(phase := Payload)
    else Spill(role, s.(phase := New))
  }

  function ShortLength(role: Role, s: State, c: byte): (t: State)
    requires s.phase == HeaderLength
    ensures Ready(t)
  {
    var t := s.(info := s.info.(masked := c >= 128));
    var control := s.info.opcode / 8 % 2 == 1;
    if c % 128 == 126 then if control then Kill(t) else t.(phase := Length16(2))
    else if c % 128 == 127 then if control then Kill(t) else t.(phase := Length64(8))
    else Measured(role, t.(info := t.info.(length := if role == Server then c % 128 else c)), false)
  }

  /** The next byte of an extended length goes to its place below those that came. */
  function LongLength(role: Role, s: State, c: byte): (t: State)
    requires (s.phase.Length16? || s.phase.Length64?) && Ready(s)
    ensures Ready(t)
  {
    var k := s.phase.left - 1;
    if s.phase == Length64(8) && c >= 128 then Kill(s)
    else
      var first := s.phase == Length16(2) || s.phase == Length64(8);
      var t := s.(info := s.info.(length := (if first then 0 else s.info.length) + c * Pow256(k)));
      if k == 0 then Measured(role, t, true)
      else if s.phase.Length16? then t.(phase := Length16(k))
      else t.(phase := Length64(k))
  }

  function KeyByte(role: Role, s: State, c: byte): (t: State)
    requires s.phase.CollectKey? && Ready(s)
    ensures Ready(t)
  {
    var i := s.phase.index;
    var info := s.info.(key := s.info.key[i := c], allZero := s.info.allZero && c == 0);
    if i < 3 then s.(info := info, phase := CollectKey(i + 1))
    else
      var t := s.(info := if role == Server then info.(maskIndex := 0) else info);
      if t.info.length != 0 then t.(phase := Payload) else Spill(role, t.(phase := New))
  }

  /** The payload is not masked, or with zeros only. */
  predicate Plain(role: Role, info: Info) { info.allZero || (role == Client && !info.masked) }

  function NextIndex(role: Role, info: Info): byte {
    if Plain(role, info) then info.maskIndex else (info.maskIndex + 1) % 256
  }

  /** A byte of payload for the buffer; at the end of the frame, and when the buffer is full, it is spilled. */
  function Take(role: Role, capacity: nat, s: State, b: byte): (t: State)
    ensures t.phase == s.phase || t.phase == New
  {
    var left := if s.info.length > 0 then s.info.length - 1 else 0xFFFF_FFFF_FFFF_FFFF;
    var t := s.(buffer := s.buffer + [b], info := s.info.(maskIndex := NextIndex(role, s.info), length := left));
    if left == 0 then Spill(role, t.(phase := New))
    else if |t.buffer| == capacity then Spill(role, t)
    else t
  }

  function PayloadByte(role: Role, capacity: nat, s: State, c: byte): (t: State)
    requires s.phase == Payload
    ensures Ready(t)
  {
    Take(role, capacity, s, if Plain(role, s.info) then c else XorByte(c, s.info.key[s.info.maskIndex % 4]))
  }

  /** One byte; a connection that was killed takes no more. */
  function Step(role: Role, capacity: nat, s: State, c: byte): (t: State)
    requires Ready(s)
    ensures Ready(t)
  {
    if s.view.killed then s
    else
      match s.phase
      case New => First(role, s, c)
      case HeaderLength => ShortLength(role, s, c)
      case Length16(_) => LongLength(role, s, c)
      case Length64(_) => LongLength(role, s, c)
      case CollectKey(_) => KeyByte(role, s, c)
      case Payload => PayloadByte(role, capacity, s, c)
  }

  function Run(role: Role, capacity: nat, s: State, input: seq<byte>): (t: State)
    requires Ready(s)
    ensures Ready(t)
    decreases |input|
  {
    if input == [] then s else Run(role, capacity, Step(role, capacity, s, input[0]), input[1..])
  }

  lemma {:induction false} RunThen(role: Role, capacity: nat, s: State, a: seq<byte>, b: seq<byte>)
    requires Ready(s)
    ensures Run(role, capacity, s, a + b) == Run(role, capacity, Run(role, capacity, s, a), b)
    decreases |a|
  {
    if a == [] {
      assert a + b == b;
    } else {
      assert (a + b)[1..] == a[1..] + b;
      RunThen(role, capacity, Step(role, capacity, s, a[0]), a[1..], b);
    }
  }
}
