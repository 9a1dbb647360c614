/** What receivers make of whole frames, and of streams of them. */
module WsStream {
  import opened Bits
  import opened WsFrame
  import opened WsReceive
  import opened WsHeader

  /** Payloads are handed up in chunks of the buffer's size, the last one shorter. */
  function Chunks(payload: seq<byte>, capacity: nat, binary: bool, final: bool): seq<Event>
    requires capacity > 0
    decreases |payload|
  {
    if payload == [] then []
    else if |payload| <= capacity then [Receive(payload, 0, binary, final)]
    else
      [Receive(payload[..capacity], |payload| - capacity, binary, final)]
      + Chunks(payload[capacity..], capacity, binary, final)
  }

  function Joined(events: seq<Event>): seq<byte> {
    if events == [] then [] else events[0].data + Joined(events[1..])
  }

  /** A chunk fits the buffer, and nothing remains of its frame if and only if it is the last. */
  predicate FitChunk(e: Event, capacity: nat, last: bool) {
    e.Receive? && 0 < |e.data| <= capacity && (e.remaining == 0 <==> last)
  }

  lemma {:induction false} ChunksSplit(payload: seq<byte>, capacity: nat, binary: bool, final: bool)
    requires 0 < capacity < |payload|
    ensures var events := Chunks(payload, capacity, binary, final);
            && events != [] && events[0] == Receive(payload[..capacity], |payload| - capacity, binary, final)
            && events[1..] == Chunks(payload[capacity..], capacity, binary, final)
  {
  }

  /** The chunks join to the payload; each fits the buffer; what remains is zero at the last chunk only. */
  lemma {:induction false} ChunksJoin(payload: seq<byte>, capacity: nat, binary: bool, final: bool)
    requires capacity > 0
    ensures var events := Chunks(payload, capacity, binary, final);
            && Joined(events) == payload && (events == [] <==> payload == [])
            && forall i :: 0 <= i < |events| ==> FitChunk(events[i], capacity, i == |events| - 1)
    decreases |payload|
  {
    var events := Chunks(payload, capacity, binary, final);
    if |payload| > capacity {
      ChunksSplit(payload, capacity, binary, final);
      ChunksJoin(payload[capacity..], capacity, binary, final);
      assert payload == payload[..capacity] + payload[capacity..];
      assert events[1..] != [];
      forall i | 0 <= i < |events|
        ensures FitChunk(events[i], capacity, i == |events| - 1)
      {
        assert i > 0 ==> events[i] == events[1..][i - 1];
      }
    } else if payload != [] {
      assert events[1..] == [];
    }
  }

  // ----- The payload

  lemma {:induction false} MaskedFirst(rest: seq<byte>, key: Nonce, index: nat)
    requires rest != []
    ensures Masked(rest, key, index)[1..] == Masked(rest[1..], key, index + 1)
    ensures XorByte(Masked(rest, key, index)[0], key[index % 4]) == rest[0]
  {
    XorCancels(rest[0], key[index % 4]);
  }

  /** The position in the key counts in bytes, which is the same to the key. */
  lemma {:induction false} MaskedWraps(rest: seq<byte>, key: Nonce, i: nat, j: nat)
    requires i % 4 == j % 4
    ensures Masked(rest, key, i) == Masked(rest, key, j)
    decreases |rest|
  {
    if rest != [] {
      assert (i + 1) % 4 == (j + 1) % 4;
      MaskedWraps(rest[1..], key, i + 1, j + 1);
    }
  }

  /** The bytes on the wire for payload that a receiver in this state is to take. */
  function OnWire(role: Role, info: Info, rest: seq<byte>): (w: seq<byte>)
    ensures |w| == |rest|
  {
    if Plain(role, info) then rest else Masked(rest, info.key, info.maskIndex)
  }

  lemma {:induction false} TakeInfo(role: Role, capacity: nat, s: State, b: byte)
    ensures var i := Take(role, capacity, s, b).info;
            && i.key == s.info.key && i.maskIndex == NextIndex(role, s.info) && Plain(role, i) == Plain(role, s.info)
  {
  }

  /** One byte of the payload is unmasked and taken, whether the key is of zeros or not. */
  lemma {:induction false} PayloadTurn(role: Role, capacity: nat, s: State, rest: seq<byte>)
    requires s.phase == Payload && !s.view.killed && rest != []
    ensures Step(role, capacity, s, OnWire(role, s.info, rest)[0]) == Take(role, capacity, s, rest[0])
    ensures OnWire(role, s.info, rest)[1..] == OnWire(role, Take(role, capacity, s, rest[0]).info, rest[1..])
  {
    TakeInfo(role, capacity, s, rest[0]);
    if !Plain(role, s.info) {
      MaskedFirst(rest, s.info.key, s.info.maskIndex);
      MaskedWraps(rest[1..], s.info.key, s.info.maskIndex + 1, NextIndex(role, s.info));
    }
  }

  /** The state at the end of a frame, before it is spilled for the last time. */
  predicate Ended(s: State, t: State, v: View) {
    && t.phase == New && t.buffer == [] && t.view == v
    && t.info.opcode == s.info.opcode && t.info.binary == s.info.binary
  }

  /** What the chunks of these bytes add to what was handed up. */
  function Logged(info: Info, v: View, all: seq<byte>, capacity: nat): View
    requires capacity > 0
  {
    v.(log := v.log + Chunks(all, capacity, info.binary, info.final))
  }

  lemma {:induction false} LoggedLast(info: Info, v: View, all: seq<byte>, capacity: nat)
    requires 0 < |all| <= capacity && info.length == 0
    ensures Deliver(info, v, all) == Logged(info, v, all, capacity)
  {
  }

  lemma {:induction false} LoggedFirst(info: Info, v: View, all: seq<byte>, capacity: nat)
    requires 0 < capacity < |all| && info.length == |all| - capacity
    ensures Logged(info, Deliver(info, v, all[..capacity]), all[capacity..], capacity) == Logged(info, v, all, capacity)
  {
    ChunksSplit(all, capacity, info.binary, info.final);
    var first := Receive(all[..capacity], info.length, info.binary, info.final);
    var rest := Chunks(all[capacity..], capacity, info.binary, info.final);
    assert Chunks(all, capacity, info.binary, info.final) == [first] + rest;
    assert v.log + ([first] + rest) == v.log + [first] + rest;
  }

  lemma {:induction false} RunFirst(role: Role, capacity: nat, s: State, rest: seq<byte>)
    requires s.phase == Payload && !s.view.killed && rest != []
    ensures Run(role, capacity, s, OnWire(role, s.info, rest))
         == var t := Take(role, capacity, s, rest[0]); Run(role, capacity, t, OnWire(role, t.info, rest[1..]))
  {
    PayloadTurn(role, capacity, s, rest);
  }

  /** What a byte of a data frame does. */
  lemma {:induction false} TakenData(role: Role, capacity: nat, s: State, b: byte, t: State)
    requires s.phase == Payload && !s.view.killed && IsData(s.info.opcode) && s.info.length > 0
    requires t == Take(role, capacity, s, b)
    ensures t.info.opcode == s.info.opcode && t.info.binary == s.info.binary && t.info.final == s.info.final
    ensures t.info.length == s.info.length - 1 && !t.view.killed
    ensures s.info.length == 1 ==> t.phase == New && t.buffer == [] && t.view == Deliver(t.info, s.view, s.buffer + [b])
    ensures s.info.length > 1 ==> t.phase == Payload
    ensures s.info.length > 1 && |s.buffer| + 1 == capacity ==>
      t.buffer == [] && t.view == Deliver(t.info, s.view, s.buffer + [b])
    ensures s.info.length > 1 && |s.buffer| + 1 != capacity ==> t.buffer == s.buffer + [b] && t.view == s.view
  {
  }

  lemma {:induction false} ChunksAhead(s: State, t: State, rest: seq<byte>, capacity: nat)
    requires |rest| > 1 && |s.buffer| < capacity && t.info.length == |rest| - 1
    requires t.info.binary == s.info.binary && t.info.final == s.info.final
    requires if |s.buffer| + 1 == capacity then t.buffer == [] && t.view == Deliver(t.info, s.view, s.buffer + [rest[0]])
             else t.buffer == s.buffer + [rest[0]] && t.view == s.view
    ensures Logged(t.info, t.view, t.buffer + rest[1..], capacity) == Logged(s.info, s.view, s.buffer + rest, capacity)
  {
    var all := s.buffer + rest;
    var begun := s.buffer + [rest[0]];
    assert all == begun + rest[1..];
    if |begun| == capacity {
      assert all[..capacity] == begun && all[capacity..] == [] + rest[1..];
      LoggedFirst(t.info, s.view, all, capacity);
    }
  }

  /** The payload of a data frame goes up in chunks. */
  lemma {:induction false} DataTaken(role: Role, capacity: nat, s: State, rest: seq<byte>)
    requires s.phase == Payload && !s.view.killed && IsData(s.info.opcode)
    requires s.info.length == |rest| > 0 && |s.buffer| < capacity
    ensures Ended(s, Run(role, capacity, s, OnWire(role, s.info, rest)),
                  Logged(s.info, s.view, s.buffer + rest, capacity))
    decreases |rest|
  {
    RunFirst(role, capacity, s, rest);
    var t := Take(role, capacity, s, rest[0]);
    TakenData(role, capacity, s, rest[0], t);
    if |rest| == 1 {
      assert s.buffer + rest == s.buffer + [rest[0]];
      LoggedLast(t.info, s.view, s.buffer + rest, capacity);
    } else {
      ChunksAhead(s, t, rest, capacity);
      DataTaken(role, capacity, t, rest[1..]);
    }
  }

  /** The payload of a short frame is served in one. */
  lemma {:induction false} ControlTaken(role: Role, capacity: nat, s: State, rest: seq<byte>)
    requires s.phase == Payload && !s.view.killed
    requires s.info.length == |rest| > 0 && |s.buffer| + |rest| <= capacity
    ensures var t := Run(role, capacity, s, OnWire(role, s.info, rest));
            exists info: Info ::
              && info.opcode == s.info.opcode && info.binary == s.info.binary && info.final == s.info.final && info.length == 0
              && Ended(s, t, Serve(role, info, s.view, s.buffer + rest))
    decreases |rest|
  {
    RunFirst(role, capacity, s, rest);
    var t := Take(role, capacity, s, rest[0]);
    assert s.buffer + rest == s.buffer + [rest[0]] + rest[1..];
    if |rest| == 1 {
      assert s.buffer + rest == s.buffer + [rest[0]];
      assert Ended(s, t, Serve(role, t.info, s.view, s.buffer + rest));
    } else {
      ControlTaken(role, capacity, t, rest[1..]);
    }
  }

  // ----- Frames

  /** What a frame leads to: chunks of payload handed up, a ping kept, a pong handed up, or the end. */
  function FrameView(role: Role, capacity: nat, binary: bool, v: View, f: Frame): View
    requires capacity > 0
  {
    if v.killed then v
    else if IsData(f.opcode) then
      v.(log := v.log + Chunks(f.payload, capacity, BinaryAfter(binary, f.opcode), f.final))
    else if f.opcode == PING then
      if v.pingPending || |f.payload| > 124 then v else v.(ping := f.payload, pingPending := true)
    else if f.opcode == PONG then
      if role == Client then v.(log := v.log + [ReceivePong(f.payload)]) else v
    else
      if v.closing == AwaitingCloseAck then v.(killed := true)
      else if role == Client then v.(closing := ReturnedCloseAlready, killed := true)
      else if v.closing == ReturnedCloseAlready then v.(killed := true)
      else
        var w := v.(closing := ReturnedCloseAlready, pingIsClose := true);
        if |f.payload| > 124 then w else w.(ping := f.payload, pingPending := true)
  }

  function FramesView(role: Role, capacity: nat, binary: bool, v: View, frames: seq<Frame>): View
    requires capacity > 0
    decreases |frames|
  {
    if frames == [] then v
    else
      var f := frames[0];
      FramesView(role, capacity, BinaryAfter(binary, f.opcode), FrameView(role, capacity, binary, v, f), frames[1..])
  }

  lemma {:induction false} ServedControl(role: Role, capacity: nat, binary: bool, info: Info, v: View, f: Frame)
    requires capacity > 0 && !v.killed && ValidFrame(f) && IsControl(f.opcode) && info.opcode == f.opcode
    ensures Serve(role, info, v, f.payload) == FrameView(role, capacity, binary, v, f)
  {
  }

  /** The bytes of the body are those the receiver is ready for. */
  lemma {:induction false} BodyOnWire(role: Role, i: Info, f: Frame)
    requires Acceptable(role, f)
    ensures OnWire(role, InfoAfter(role, i, f), f.payload) == Body(f)
  {
    if f.mask.Some? && f.mask.value == [0, 0, 0, 0] {
      MaskedByZero(f.payload, f.mask.value, 0);
    }
  }

  /** After a frame the receiver is idle again, and has done with it what it should. */
  lemma {:induction false} FrameReceived(role: Role, capacity: nat, s: State, f: Frame)
    requires Idle(s) && Acceptable(role, f) && capacity >= 125
    ensures var t := Run(role, capacity, s, Wire(f));
            && t.view == FrameView(role, capacity, s.info.binary, s.view, f)
            && (!t.view.killed ==> Idle(t) && t.info.binary == BinaryAfter(s.info.binary, f.opcode))
  {
    var begun := State(New, InfoAfter(role, s.info, f), [], s.view);
    HeaderRun(role, capacity, s, f);
    RunThen(role, capacity, s, Header(f), Body(f));
    BodyOnWire(role, s.info, f);
    if f.payload == [] {
      EmptyReceived(role, capacity, s, f, begun);
    } else {
      var p := begun.(phase := Payload);
      assert [] + f.payload == f.payload;
      if IsData(f.opcode) {
        DataTaken(role, capacity, p, f.payload);
      } else {
        ControlTaken(role, capacity, p, f.payload);
        var info: Info :|
          info.opcode == f.opcode && Ended(p, Run(role, capacity, p, Body(f)), Serve(role, info, s.view, [] + f.payload));
        ServedControl(role, capacity, s.info.binary, info, s.view, f);
      }
    }
  }

  lemma {:induction false} EmptyReceived(role: Role, capacity: nat, s: State, f: Frame, begun: State)
    requires Idle(s) && Acceptable(role, f) && capacity > 0 && f.payload == []
    requires begun == State(New, InfoAfter(role, s.info, f), [], s.view)
    ensures var t := Run(role, capacity, Begun(role, begun), Body(f));
            && t.view == FrameView(role, capacity, s.info.binary, s.view, f)
            && (!t.view.killed ==> Idle(t) && t.info.binary == BinaryAfter(s.info.binary, f.opcode))
  {
    assert Body(f) == [];
    assert Run(role, capacity, Begun(role, begun), []) == Begun(role, begun);
    if IsControl(f.opcode) {
      ServedControl(role, capacity, s.info.binary, begun.info, s.view, f);
    } else {
      assert s.view.log + [] == s.view.log;
    }
  }

  lemma {:induction false} KilledRun(role: Role, capacity: nat, s: State, input: seq<byte>)
    requires Ready(s) && s.view.killed
    ensures Run(role, capacity, s, input) == s
    decreases |input|
  {
    if input != [] {
      KilledRun(role, capacity, s, input[1..]);
    }
  }

  lemma {:induction false} KilledView(role: Role, capacity: nat, binary: bool, v: View, frames: seq<Frame>)
    requires capacity > 0 && v.killed
    ensures FramesView(role, capacity, binary, v, frames) == v
    decreases |frames|
  {
    if frames != [] {
      KilledView(role, capacity, BinaryAfter(binary, frames[0].opcode), v, frames[1..]);
    }
  }

  /** A stream of frames is received frame by frame: masked by a client or not by a server, in all forms of length. */
  lemma {:induction false} StreamReceived(role: Role, capacity: nat, s: State, frames: seq<Frame>)
    requires Idle(s) && capacity >= 125 && AllValid(frames)
    requires forall i :: 0 <= i < |frames| ==> Acceptable(role, frames[i])
    ensures var t := Run(role, capacity, s, WireAll(frames));
            && t.view == FramesView(role, capacity, s.info.binary, s.view, frames)
            && (!t.view.killed ==> Idle(t))
    decreases |frames|
  {
    if frames != [] {
      var f := frames[0];
      FrameReceived(role, capacity, s, f);
      RunThen(role, capacity, s, Wire(f), WireAll(frames[1..]));
      var t := Run(role, capacity, s, Wire(f));
      if t.view.killed {
        KilledRun(role, capacity, t, WireAll(frames[1..]));
        KilledView(role, capacity, BinaryAfter(s.info.binary, f.opcode), t.view, frames[1..]);
      } else {
        StreamReceived(role, capacity, t, frames[1..]);
      }
    }
  }

  // ----- Frames whose extended length is zero

  const SIZE_LIMIT := 0x1_0000_0000_0000_0000

  /** A server does not end such a frame at its header when it has no key, and counts down from zero. */
  lemma {:induction false} EmptyExtendedHeader(capacity: nat, s: State, first: byte, k: nat)
    requires Idle(s) && IsData(first % 16) && (k == 2 || k == 8)
    ensures var begun := First(Server, s, first);
            Run(Server, capacity, s, [first] + ([if k == 2 then 126 else 127] + BigEndian(0, k)))
            == begun.(phase := Payload, info := begun.info.(masked := false, length := 0))
  {
    var begun, c := First(Server, s, first), if k == 2 then 126 else 127;
    var t := begun.(phase := if k == 2 then Length16(2) else Length64(8), info := begun.info.(masked := false));
    RunOne(Server, capacity, s, first, [c] + BigEndian(0, k));
    LongLengthRun(Server, capacity, begun, false, k, c, t, BigEndian(0, k));
    LongLengthPartial(t, 0, k);
    LongRun(Server, capacity, t, 0, k);
  }

  /** To the next byte of payload no length is the same as the largest. */
  lemma {:induction false} LengthWraps(capacity: nat, s: State, b: byte)
    requires s.phase == Payload && s.info.length == 0
    ensures Take(Server, capacity, s, b) == Take(Server, capacity, s.(info := s.info.(length := SIZE_LIMIT)), b)
  {
  }

  lemma {:induction false} StaysInPayload(role: Role, capacity: nat, s: State, rest: seq<byte>)
    requires s.phase == Payload && !s.view.killed && IsData(s.info.opcode) && Plain(role, s.info) && |rest| <= s.info.length
    ensures var t := Run(role, capacity, s, rest);
            !t.view.killed && t.phase == if rest == [] || |rest| < s.info.length then Payload else New
    decreases |rest|
  {
    if rest != [] {
      RunFirst(role, capacity, s, rest);
      var t := Take(role, capacity, s, rest[0]);
      TakenData(role, capacity, s, rest[0], t);
      TakeInfo(role, capacity, s, rest[0]);
      if t.phase == Payload {
        StaysInPayload(role, capacity, t, rest[1..]);
      } else {
        assert rest[1..] == [];
      }
    }
  }

  /**
   * A data frame without a key, and with an extended length of zero, takes the 2^64 bytes after it for its payload, the
   * frames that follow included: after fewer a server still waits for more of it.
   */
  lemma {:induction false} EmptyLengthSwallows(capacity: nat, s: State, first: byte, k: nat, rest: seq<byte>)
    requires Idle(s) && IsData(first % 16) && (k == 2 || k == 8) && |rest| <= SIZE_LIMIT
    ensures var t := Run(Server, capacity, s, [first] + ([if k == 2 then 126 else 127] + BigEndian(0, k)) + rest);
            !t.view.killed && (t.phase == Payload <==> |rest| < SIZE_LIMIT)
  {
    var header := [first] + ([if k == 2 then 126 else 127] + BigEndian(0, k));
    var t := Run(Server, capacity, s, header);
    RunThen(Server, capacity, s, header, rest);
    EmptyExtendedHeader(capacity, s, first, k);
    if rest != [] {
      var u := t.(info := t.info.(length := SIZE_LIMIT));
      LengthWraps(capacity, t, rest[0]);
      RunFirst(Server, capacity, t, rest);
      RunFirst(Server, capacity, u, rest);
      StaysInPayload(Server, capacity, u, rest);
    }
  }
}
