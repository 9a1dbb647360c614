/** Sending frames: a frame that is accepted in part is continued by its caller. */
module WsSend {
  import opened Bits
  import opened Options
  import opened WsFrame
  import opened WsReceive
  import opened WsWriter
  import opened WsRaw

  /** Clients mask, and servers do not. */
  predicate Sided(frames: seq<Frame>, role: Role) {
    forall i :: 0 <= i < |frames| ==> (frames[i].mask.Some? <==> role == Client)
  }

  function Overhead(len: nat, masked: bool): nat {
    (if masked then 4 else 0) + if len < 126 then 2 else if len < 65536 then 4 else 10
  }

  /** How many bytes a frame has on the wire. */
  function Size(len: nat, masked: bool): nat { len + Overhead(len, masked) }

  lemma {:induction false} WireNext(frames: seq<Frame>, f: Frame)
    requires AllValid(frames) && ValidFrame(f)
    ensures AllValid(frames + [f]) && WireAll(frames + [f]) == WireAll(frames) + Wire(f)
    decreases |frames|
  {
    var more := frames + [f];
    if frames == [] {
      assert more[1..] == [];
      assert WireAll(more) == Wire(f) + [];
    } else {
      assert more[0] == frames[0] && more[1..] == frames[1..] + [f];
      WireNext(frames[1..], f);
      assert WireAll(more) == Wire(frames[0]) + (WireAll(frames[1..]) + Wire(f));
    }
  }

  lemma {:induction false} WireSize(f: Frame)
    requires ValidFrame(f)
    ensures |Wire(f)| == Size(|f.payload|, f.mask.Some?)
  {
  }

  // ----- Streams that are whole

  /** So far the stream is a beginning of its frames, and it is known whether the last of them is complete. */
  predicate Whole(accepted: seq<byte>, stream: seq<byte>, inside: bool) {
    accepted <= stream && (inside <==> |accepted| < |stream|)
  }

  /** The part of a frame's bytes that is accepted leaves the stream whole exactly if the flag tells whether it is all. */
  lemma {:induction false} WholeBegun(stream: seq<byte>, wire: seq<byte>, k: nat, inside: bool)
    requires k <= |wire|
    ensures Whole(stream + wire[..k], stream + wire, inside) <==> (inside <==> k < |wire|)
  {
    assert stream + wire == (stream + wire[..k]) + wire[k..];
  }

  /** More bytes leave the stream whole exactly if they are those that are owed, and the flag tells whether they are all. */
  lemma {:induction false} WholeContinued(accepted: seq<byte>, stream: seq<byte>, more: seq<byte>, inside: bool)
    requires accepted <= stream
    ensures var owed := stream[|accepted|..];
            Whole(accepted + more, stream, inside) <==> more <= owed && (inside <==> |more| < |owed|)
  {
    var owed := stream[|accepted|..];
    assert stream == accepted + owed;
    if more <= owed {
      assert stream == (accepted + more) + owed[|more|..];
    }
  }

  /** What is left of some bytes after the first k stands in the buffer, in front of a place. */
  ghost predicate StillAt(buf: seq<byte>, end: nat, wire: seq<byte>, k: int) {
    && 0 <= k <= |wire| && |wire| - k <= end <= |buf|
    && buf[end - (|wire| - k)..end] == wire[k..]
  }

  lemma {:induction false} StillThere(buf: seq<byte>, at: nat, end: nat, wire: seq<byte>, k: nat)
    requires at <= end <= |buf| && buf[at..end] == wire && k <= |wire|
    ensures StillAt(buf, end, wire, k)
  {
  }

  /** Puts a frame into the buffer, and gives its size. */
  method PutSized(buf: array<byte>, start: nat, len: nat, opcode: nat, final: bool, mask: Option<Nonce>, ghost f: Frame)
    returns (total: nat)
    requires 4 + 10 <= start && start + len <= buf.Length && (mask.Some? ==> len < MASK_LIMIT)
    requires f == Frame(opcode, final, buf[start..start + len], mask) && ValidFrame(f)
    modifies buf
    ensures total == Size(len, mask.Some?) == |Wire(f)| <= start + len
    ensures buf[start + len - total..start + len] == Wire(f)
  {
    WireSize(f);
    var pre := PutFrame(buf, start, len, opcode, final, mask);
    total := pre + len;
  }

  /** A server puts the status in front of the payload. */
  method PutWithStatus(buf: array<byte>, start: nat, len: nat, final: bool, reason: nat, ghost f: Frame) returns (total: nat)
    requires LWS_SEND_BUFFER_PRE_PADDING <= start && start + len <= buf.Length && 0 < reason < CLOSE_REASON_LIMIT
    requires f == Frame(CLOSE, final, Status(CLOSE, reason) + buf[start..start + len], None) && ValidFrame(f)
    modifies buf
    ensures total == Size(len + 2, false) == |Wire(f)| <= start + len
    ensures buf[start + len - total..start + len] == Wire(f)
  {
    ghost var data := buf[start..start + len];
    PutStatus(buf, start - 2, reason);
    assert buf[start - 2..start + len] == Status(CLOSE, reason) + data;
    total := PutSized(buf, start - 2, len + 2, CLOSE, final, None, f);
  }

  class Connection {
    const role: Role
    const raw: Sender
    var insideFrame: bool

    /** All frames begun, and their bytes. */
    ghost var frames: seq<Frame>
    ghost var stream: seq<byte>

    ghost predicate Valid()
      reads this, raw, raw.truncated
    {
      raw.Valid() && (insideFrame ==> raw.cleanBuffer) && Counted()
    }

    ghost predicate Counted()
      reads this`frames, this`stream
    {
      AllValid(frames) && Sided(frames, role) && stream == WireAll(frames)
    }

    /** What was accepted is a beginning of the frames, and a frame is open exactly if some of it is owed. */
    ghost predicate Intact()
      reads this, raw
    {
      Whole(raw.accepted, stream, insideFrame)
    }

    ghost function Owed(): seq<byte>
      reads this, raw
      requires Intact()
    {
      stream[|raw.accepted|..]
    }

    constructor (role: Role)
      ensures Valid() && Intact() && !insideFrame && frames == [] && this.role == role && fresh(raw)
      ensures raw.mode == Open && raw.wire == [] && raw.left == 0 && raw.truncated == null
    {
      this.role := role;
      insideFrame := false;
      raw := new Sender();
      frames, stream := [], [];
    }

    /** When the socket can take more, what is pending goes before anything else. */
    method Flush(outcome: Outcome) returns (ok: bool)
      requires Valid() && Took(outcome) <= raw.left
      modifies raw, raw.truncated
      ensures ok <==> if old(raw.left) > 0 then Flushed(old(raw.left), raw.mode, outcome) >= 0 else raw.mode == Open
      ensures raw.mode == old(raw.mode)
      ensures Valid() && raw.accepted == old(raw.accepted) && raw.left == old(raw.left) - Took(outcome)
      ensures raw.truncated != old(raw.truncated) ==> fresh(raw.truncated)
      ensures old(Intact()) ==> Intact()
    {
      ok := raw.Flush(outcome);
    }

    /** Accounts for a frame of which k bytes were accepted; it is begun unless the send failed. */
    ghost method Begin(f: Frame, k: int, was: seq<byte>)
      requires Counted() && ValidFrame(f) && (f.mask.Some? <==> role == Client)
      requires k <= |Wire(f)| && raw.accepted == was + Front(Wire(f), k)
      modifies this`frames, this`stream
      ensures Counted() && frames == old(frames) + if k < 0 then [] else [f]
      ensures was == old(stream) ==> (Intact() <==> if k < 0 then !insideFrame else (insideFrame <==> k < |Wire(f)|))
    {
      if k >= 0 {
        WireNext(frames, f);
        assert Sided(frames + [f], role);
        WholeBegun(stream, Wire(f), k, insideFrame);
        frames := frames + [f];
        stream := stream + Wire(f);
      } else {
        assert was + [] == was;
      }
    }

    /** Whether a call of Write has anything to send. */
    predicate Writes(len: nat, opcode: nat)
      reads this, raw
    {
      raw.mode == Open && (len > 0 || IsControl(opcode))
    }

    /** The frame that is to be written: a close frame begins with a status if there is a reason. */
    ghost function Intended(buf: seq<byte>, start: nat, len: nat, opcode: nat, final: bool, nonce: Nonce, reason: nat): Frame
      requires start + len <= |buf| && reason < CLOSE_REASON_LIMIT
    {
      Frame(opcode, final, Status(opcode, reason) + buf[start..start + len], if role == Client then Some(nonce) else None)
    }

    /** The frame that is written instead: a client gets a status wrong. */
    ghost function FrameOf(buf: seq<byte>, start: nat, len: nat, opcode: nat, final: bool, nonce: Nonce, reason: nat): Frame
      requires 6 <= start && start + len <= |buf| && reason < CLOSE_REASON_LIMIT
    {
      if role == Client && Status(opcode, reason) != []
      then Displaced(final, buf[start - 6..start - 4], nonce, buf[start..start + len])
      else Intended(buf, start, len, opcode, final, nonce, reason)
    }

    /** The frame written is the one intended, except for a client's close frame with a status. */
    lemma {:induction false} WrittenAsIntended(buf: seq<byte>, start: nat, len: nat, opcode: nat, final: bool, nonce: Nonce,
                                               reason: nat)
      requires 6 <= start && start + len <= |buf| && reason < CLOSE_REASON_LIMIT
      ensures FrameOf(buf, start, len, opcode, final, nonce, reason) == Intended(buf, start, len, opcode, final, nonce, reason)
         <==> !(role == Client && opcode == CLOSE && reason != 0)
    {
      if role == Client && opcode == CLOSE && reason != 0 {
        DisplacedIsWrong(final, buf[start - 6..start - 4], nonce, buf[start..start + len], reason);
      }
    }

    /**
     * Writes a frame around a payload in a buffer, or goes on with the rest of the payload that an earlier call left.
     * Accepted are the first k bytes of the frame, or of the rest; those that are left stand at the end of the buffer.
     * A new frame leaves the stream whole unless the socket fails in a data frame or takes part of a control frame;
     * the rest of a frame does if it is what is owed.
     */
    method Write(buf: array<byte>, start: nat, len: nat, opcode: nat, final: bool, nonce: Nonce, reason: nat, outcome: Outcome)
      returns (n: int, ghost k: int)
      requires Valid() && raw.left == 0 && buf != raw.truncated && reason < CLOSE_REASON_LIMIT
      requires LWS_SEND_BUFFER_PRE_PADDING <= start && start + len + |Status(opcode, reason)| <= buf.Length
      requires ValidFrame(Intended(buf[..], start, len, opcode, final, nonce, reason)) && (role == Client ==> len < MASK_LIMIT)
      requires Took(outcome) <= if insideFrame then len else Size(len + |Status(opcode, reason)|, role == Client)
      modifies this, raw, raw.truncated, buf
      ensures Valid() && (raw.truncated != old(raw.truncated) ==> fresh(raw.truncated))
      ensures !old(Writes(len, opcode)) ==>
        raw.accepted == old(raw.accepted) && frames == old(frames) && insideFrame == old(insideFrame)
      ensures old(Writes(len, opcode) && !insideFrame) ==>
        var f := old(FrameOf(buf[..], start, len, opcode, final, nonce, reason));
        && ValidFrame(f) && k == Taken(|Wire(f)|, true, outcome) && raw.accepted == old(raw.accepted) + Front(Wire(f), k)
        && n == (if IsControl(opcode) || k < 0 then k else k - Overhead(len, role == Client))
        && frames == old(frames) + (if k < 0 then [] else [f])
        && (k >= 0 ==> StillAt(buf[..], start + len, Wire(f), k))
        && (old(Intact()) ==> (Intact() <==> k == |Wire(f)| || (IsData(opcode) <==> k >= 0)))
      ensures old(Writes(len, opcode) && insideFrame) ==>
        var data := old(buf[start..start + len]);
        && n == k == (if len == 0 then 0 else Taken(len, true, outcome)) && frames == old(frames)
        && raw.accepted == old(raw.accepted) + Front(data, k) && buf[..] == old(buf[..])
        && (old(Intact()) ==>
              (Intact() <==> Front(data, k) <= old(Owed()) && (IsData(opcode) && k == len <==> k == |old(Owed())|)))
    {
      k := 0;
      if len == 0 && IsData(opcode) {
        return 0, 0;
      }
      if raw.mode != Open {
        return -1, 0;
      }
      if insideFrame {
        n := WriteMore(buf, start, len, opcode, outcome);
        k := n;
      } else {
        n, k := WriteNew(buf, start, len, opcode, final, nonce, reason, outcome,
                         FrameOf(buf[..], start, len, opcode, final, nonce, reason));
      }
    }

    /** A new frame is put into the buffer, sent, and accounted for. */
    method WriteNew(buf: array<byte>, start: nat, len: nat, opcode: nat, final: bool, nonce: Nonce, reason: nat,
                    outcome: Outcome, ghost f: Frame)
      returns (n: int, ghost k: int)
      requires Valid() && raw.left == 0 && buf != raw.truncated && raw.mode == Open && !insideFrame
      requires reason < CLOSE_REASON_LIMIT
      requires LWS_SEND_BUFFER_PRE_PADDING <= start && start + len + |Status(opcode, reason)| <= buf.Length
      requires f == FrameOf(buf[..], start, len, opcode, final, nonce, reason) && (role == Client ==> len < MASK_LIMIT)
      requires ValidFrame(Intended(buf[..], start, len, opcode, final, nonce, reason))
      requires Took(outcome) <= Size(len + |Status(opcode, reason)|, role == Client)
      modifies this, raw, raw.truncated, buf
      ensures Valid() && (raw.truncated != old(raw.truncated) ==> fresh(raw.truncated))
      ensures ValidFrame(f) && k == Taken(|Wire(f)|, true, outcome)
      ensures raw.accepted == old(raw.accepted) + Front(Wire(f), k)
      ensures n == if IsControl(opcode) || k < 0 then k else k - Overhead(len, role == Client)
      ensures frames == old(frames) + if k < 0 then [] else [f]
      ensures k >= 0 ==> StillAt(buf[..], start + len, Wire(f), k)
      ensures old(Intact()) ==> (Intact() <==> k == |Wire(f)| || (IsData(opcode) <==> k >= 0))
    {
      ghost var was := raw.accepted;
      var total := Put(buf, start, len, opcode, final, nonce, reason, f);
      n, k := WriteFrame(buf, start, len, total, opcode, outcome, Wire(f));
      Begin(f, k, was);
    }

    /** Inside a frame there is no header, and what was masked is not masked again. */
    method WriteMore(buf: array<byte>, start: nat, len: nat, opcode: nat, outcome: Outcome) returns (n: int)
      requires Valid() && raw.left == 0 && buf != raw.truncated && insideFrame && raw.mode == Open
      requires start + len <= buf.Length && ValidOpcode(opcode) && (len > 0 || IsControl(opcode))
      requires Took(outcome) <= len
      modifies this`insideFrame, raw, raw.truncated
      ensures Valid() && (raw.truncated != old(raw.truncated) ==> fresh(raw.truncated))
      ensures n == (if len == 0 then 0 else Taken(len, true, outcome))
      ensures raw.accepted == old(raw.accepted) + Front(buf[start..start + len], n)
      ensures old(Intact()) ==>
        (Intact() <==> Front(buf[start..start + len], n) <= old(Owed()) && (IsData(opcode) && n == len <==> n == |old(Owed())|))
    {
      ghost var data, was := buf[start..start + len], raw.accepted;
      n := raw.IssueRaw(buf, start, len, outcome);
      if IsData(opcode) && n == len {
        insideFrame := false;
      }
      if was <= stream {
        WholeContinued(was, stream, Front(data, n), insideFrame);
      }
    }

    /** Puts the frame into the buffer, where it ends with the payload; a status goes in front of the payload. */
    method Put(buf: array<byte>, start: nat, len: nat, opcode: nat, final: bool, nonce: Nonce, reason: nat, ghost f: Frame)
      returns (total: nat)
      requires Valid() && buf != raw.truncated && reason < CLOSE_REASON_LIMIT
      requires LWS_SEND_BUFFER_PRE_PADDING <= start && start + len + |Status(opcode, reason)| <= buf.Length
      requires f == FrameOf(buf[..], start, len, opcode, final, nonce, reason) && (role == Client ==> len < MASK_LIMIT)
      requires ValidFrame(Intended(buf[..], start, len, opcode, final, nonce, reason))
      modifies buf
      ensures Valid() && (Intact() <==> old(Intact()))
      ensures ValidFrame(f) && f.opcode == opcode && (f.mask.Some? <==> role == Client)
      ensures total == Size(len + |Status(opcode, reason)|, role == Client) == |Wire(f)| <= start + len
      ensures buf[start + len - total..start + len] == Wire(f)
    {
      if opcode != CLOSE || reason == 0 {
        assert [] + buf[start..start + len] == buf[start..start + len];
        total := PutSized(buf, start, len, opcode, final, if role == Client then Some(nonce) else None, f);
      } else if role == Client {
        PutDisplaced(buf, start, len, final, nonce, reason, f);
        total := len + 8;
      } else {
        total := PutWithStatus(buf, start, len, final, reason, f);
      }
    }

    /** Sends a frame of this total size that ends with the payload; the result counts what was sent of the payload. */
    method WriteFrame(buf: array<byte>, start: nat, len: nat, total: nat, opcode: nat, outcome: Outcome, ghost wire: seq<byte>)
      returns (n: int, ghost k: int)
      requires raw.Valid() && raw.left == 0 && buf != raw.truncated && !insideFrame && raw.mode == Open
      requires 0 < total <= start + len <= buf.Length && Took(outcome) <= total
      requires buf[start + len - total..start + len] == wire
      modifies this`insideFrame, raw, raw.truncated
      ensures raw.Valid() && raw.cleanBuffer && (raw.truncated != old(raw.truncated) ==> fresh(raw.truncated))
      ensures k == Taken(total, true, outcome) <= total && raw.accepted == old(raw.accepted) + Front(wire, k)
      ensures insideFrame == (IsData(opcode) && k != total)
      ensures k >= 0 ==> StillAt(buf[..], start + len, wire, k)
      ensures n == if IsData(opcode) && k >= 0 then k - (total - len) else k
    {
      var sent := SendFrame(buf, start + len - total, total, opcode, outcome, wire);
      k := sent;
      n := if IsData(opcode) && sent >= 0 then sent - (total - len) else sent;
    }

    /** Sends a frame that stands in the buffer. A control frame is sent once, whatever becomes of its end. */
    method SendFrame(buf: array<byte>, at: nat, total: nat, opcode: nat, outcome: Outcome, ghost wire: seq<byte>)
      returns (k: int)
      requires raw.Valid() && raw.left == 0 && buf != raw.truncated && !insideFrame && raw.mode == Open
      requires 0 < total && at + total <= buf.Length && Took(outcome) <= total && buf[at..at + total] == wire
      modifies this`insideFrame, raw, raw.truncated
      ensures raw.Valid() && raw.cleanBuffer && (raw.truncated != old(raw.truncated) ==> fresh(raw.truncated))
      ensures k == Taken(total, true, outcome) <= total && raw.accepted == old(raw.accepted) + Front(wire, k)
      ensures insideFrame == (IsData(opcode) && k != total)
      ensures k >= 0 ==> StillAt(buf[..], at + total, wire, k)
    {
      raw.cleanBuffer := true;
      ghost var bytes := buf[..];
      assert bytes[at..at + total] == wire;
      k := raw.IssueRaw(buf, at, total, outcome);
      if IsData(opcode) {
        insideFrame := k != total;
      }
      if k >= 0 {
        StillThere(bytes, at, at + total, wire, k);
      }
    }
  }
}
