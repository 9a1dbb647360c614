/** From one end of a connection to the other. */
module WsConversation {
  import opened Bits
  import opened WsFrame
  import opened WsReceive
  import opened WsHeader
  import opened WsStream
  import opened WsSend

  function Other(role: Role): Role { if role == Server then Client else Server }

  /**
   * Whatever partial sends a connection has been through, once all is on the wire the other end receives its frames
   * one by one: one header and one payload each, masked once.
   */
  lemma {:induction false} Delivered(c: Connection, s: State, capacity: nat)
    requires c.Valid() && c.Intact() && !c.insideFrame && c.raw.Pending() == []
    requires Idle(s) && capacity >= 125
    ensures var t := Run(Other(c.role), capacity, s, c.raw.wire);
            && t.view == FramesView(Other(c.role), capacity, s.info.binary, s.view, c.frames)
            && (!t.view.killed ==> Idle(t))
  {
    assert c.raw.wire + [] == c.raw.wire == c.raw.accepted;
    assert c.raw.wire == WireAll(c.frames);
    forall i | 0 <= i < |c.frames|
      ensures Acceptable(Other(c.role), c.frames[i])
    {
      assert ValidFrame(c.frames[i]);
    }
    StreamReceived(Other(c.role), capacity, s, c.frames);
  }

  /** Data that is chunked on the way up is the data that was written. */
  lemma {:induction false} PayloadDelivered(role: Role, capacity: nat, binary: bool, v: View, f: Frame)
    requires capacity > 0 && !v.killed && IsData(f.opcode)
    ensures var t := FrameView(role, capacity, binary, v, f);
            && v.log <= t.log && Joined(t.log[|v.log|..]) == f.payload
            && forall i :: |v.log| <= i < |t.log| ==> FitChunk(t.log[i], capacity, i == |t.log| - 1)
  {
    var events := Chunks(f.payload, capacity, BinaryAfter(binary, f.opcode), f.final);
    ChunksJoin(f.payload, capacity, BinaryAfter(binary, f.opcode), f.final);
    var t := FrameView(role, capacity, binary, v, f);
    assert t.log[|v.log|..] == events;
    forall i | |v.log| <= i < |t.log|
      ensures FitChunk(t.log[i], capacity, i == |t.log| - 1)
    {
      assert t.log[i] == events[i - |v.log|];
    }
  }

  // ----- A control frame that is torn

  lemma {:induction false} PayloadOpen(role: Role, capacity: nat, s: State, input: seq<byte>)
    requires s.phase == Payload && s.info.length > |input|
    ensures Run(role, capacity, s, input).phase == Payload
    decreases |input|
  {
    if input != [] {
      var t := Step(role, capacity, s, input[0]);
      if s.view.killed {
        KilledRun(role, capacity, s, input);
      } else {
        assert t.phase == Payload && t.info.length == s.info.length - 1;
        PayloadOpen(role, capacity, t, input[1..]);
      }
    }
  }

  lemma {:induction false} KeyOpen(role: Role, capacity: nat, s: State, input: seq<byte>)
    requires s.phase.CollectKey? && s.phase.index + |input| < 4 && !s.view.killed
    ensures Run(role, capacity, s, input).phase == CollectKey(s.phase.index + |input|)
    decreases |input|
  {
    if input != [] {
      KeyOpen(role, capacity, KeyByte(role, s, input[0]), input[1..]);
    }
  }

  lemma {:induction false} HeaderOpen(role: Role, capacity: nat, s: State, f: Frame, n: nat)
    requires Idle(s) && Acceptable(role, f) && IsControl(f.opcode) && 0 < n < |Header(f)|
    ensures Run(role, capacity, s, Header(f)[..n]).phase != New
  {
    var len, masked := |f.payload|, f.mask.Some?;
    var t := First(role, s, FirstByte(f));
    FirstRun(role, s, f);
    if n == 1 {
      assert Header(f)[..1] == [FirstByte(f)] + [];
      RunOne(role, capacity, s, FirstByte(f), []);
    } else {
      var part := Key(f.mask)[..n - 2];
      assert Header(f)[..n] == [FirstByte(f)] + (LengthBytes(len, masked) + part);
      RunOne(role, capacity, s, FirstByte(f), LengthBytes(len, masked) + part);
      RunThen(role, capacity, t, LengthBytes(len, masked), part);
      LengthRun(role, capacity, t, len, masked);
      KeyOpen(role, capacity, Measured(role, t.(info := t.info.(masked := masked, length := len)), false), part);
    }
  }

  /** A control frame that comes only in part leaves its receiver inside it. */
  lemma {:induction false} ControlOpen(role: Role, capacity: nat, s: State, f: Frame, n: nat)
    requires Idle(s) && Acceptable(role, f) && IsControl(f.opcode) && 0 < n < |Wire(f)|
    ensures Run(role, capacity, s, Wire(f)[..n]).phase != New
  {
    var h := |Header(f)|;
    if n < h {
      assert Wire(f)[..n] == Header(f)[..n];
      HeaderOpen(role, capacity, s, f, n);
    } else {
      assert Wire(f)[..n] == Header(f) + Body(f)[..n - h];
      RunThen(role, capacity, s, Header(f), Body(f)[..n - h]);
      HeaderRun(role, capacity, s, f);
      var begun := State(New, InfoAfter(role, s.info, f), [], s.view);
      PayloadOpen(role, capacity, Begun(role, begun), Body(f)[..n - h]);
    }
  }

  /**
   * When the socket takes only part of a control frame, the rest is never sent: after whole frames and that part the
   * other end is not at rest, and takes the next frame for the missing bytes.
   */
  lemma {:induction false} TornControl(role: Role, capacity: nat, s: State, frames: seq<Frame>, f: Frame, n: nat)
    requires Idle(s) && capacity >= 125 && AllValid(frames)
    requires forall i :: 0 <= i < |frames| ==> Acceptable(role, frames[i])
    requires Acceptable(role, f) && IsControl(f.opcode) && 0 < n < |Wire(f)|
    ensures !Idle(Run(role, capacity, s, WireAll(frames) + Wire(f)[..n]))
  {
    StreamReceived(role, capacity, s, frames);
    RunThen(role, capacity, s, WireAll(frames), Wire(f)[..n]);
    var t := Run(role, capacity, s, WireAll(frames));
    if t.view.killed {
      KilledRun(role, capacity, t, Wire(f)[..n]);
    } else {
      ControlOpen(role, capacity, t, f, n);
    }
  }
}
