/** What the MAVLink parser delivers over whole byte streams. */
module MavlinkStream {
  import opened Bits
  import opened CrcStep
  import opened Crc
  import opened MavlinkMessages
  import opened MavlinkParser

  /** The channel after a whole stream. */
  function Run(link: Link, ch: Channel, s: seq<byte>): Channel {
    if s == [] then ch else Step(link, Run(link, ch, s[..|s| - 1]), s[|s| - 1])
  }

  /** The messages handed to the caller, in order. */
  function Delivered(link: Link, ch: Channel, s: seq<byte>): seq<Message> {
    if s == [] then []
    else
      var after := Run(link, ch, s);
      Delivered(link, ch, s[..|s| - 1]) + if after.status.msgReceived then [after.msg] else []
  }

  /** The call that consumes byte n of the stream (counting from 1) returns a message. */
  predicate DeliversAt(link: Link, ch: Channel, s: seq<byte>, n: nat) {
    0 < n <= |s| && Run(link, ch, s[..n]).status.msgReceived
  }

  lemma {:induction false} RunInvariant(link: Link, ch: Channel, s: seq<byte>)
    requires Invariant(link, ch)
    ensures Invariant(link, Run(link, ch, s))
    decreases |s|
  {
    if s != [] {
      RunInvariant(link, ch, s[..|s| - 1]);
      StepSound(link, Run(link, ch, s[..|s| - 1]), s[|s| - 1]);
    }
  }

  predicate EndsWith(s: seq<byte>, w: seq<byte>) {
    |w| <= |s| && s[|s| - |w|..] == w
  }

  // ----- Soundness of every delivery

  lemma {:induction false} RunSnoc(link: Link, ch: Channel, p: seq<byte>, c: byte)
    ensures Run(link, ch, p + [c]) == Step(link, Run(link, ch, p), c)
    ensures Delivered(link, ch, p + [c])
         == Delivered(link, ch, p) + if Run(link, ch, p + [c]).status.msgReceived then [Run(link, ch, p + [c]).msg] else []
  {
    assert (p + [c])[..|p|] == p;
  }

  lemma {:induction false} EndsWithSnoc(s: seq<byte>, w: seq<byte>, c: byte)
    requires EndsWith(s, w)
    ensures EndsWith(s + [c], w + [c]) && EndsWith(s + [c], [c]) && EndsWith(s + [c], [])
  {
    assert (s + [c])[|s| - |w|..] == w + [c];
  }

  lemma {:induction false} PendingStaysSuffix(link: Link, before: Channel, p: seq<byte>, c: byte)
    requires Invariant(link, before) && EndsWith(p, Pending(before))
    ensures EndsWith(p + [c], Pending(Step(link, before, c)))
  {
    StepSound(link, before, c);
    EndsWithSnoc(p, Pending(before), c);
  }

  /** Pending bytes are the latest bytes of the stream. */
  lemma {:induction false} PendingIsSuffix(link: Link, ch: Channel, s: seq<byte>)
    requires Invariant(link, ch) && Resting(ch)
    ensures EndsWith(s, Pending(Run(link, ch, s)))
    decreases |s|
  {
    if s != [] {
      var p, c := s[..|s| - 1], s[|s| - 1];
      assert s == p + [c];
      PendingIsSuffix(link, ch, p);
      RunInvariant(link, ch, p);
      PendingStaysSuffix(link, Run(link, ch, p), p, c);
      RunSnoc(link, ch, p, c);
    }
  }

  lemma {:induction false} RunPrefix(link: Link, ch: Channel, s: seq<byte>, n: nat)
    requires 0 < n <= |s|
    ensures Run(link, ch, s[..n]) == Step(link, Run(link, ch, s[..n - 1]), s[n - 1])
  {
    assert s[..n] == s[..n - 1] + [s[n - 1]];
    RunSnoc(link, ch, s[..n - 1], s[n - 1]);
  }

  lemma {:induction false} PendingGrowsByOne(link: Link, before: Channel, c: byte)
    requires Invariant(link, before)
    ensures var after := Step(link, before, c);
            |Pending(after)| <= |Pending(before)| + 1 && (after.status.msgReceived ==> Pending(after) == [])
  {
    StepSound(link, before, c);
  }

  /** No pending byte was part of a delivery. */
  lemma {:induction false} PendingAfterDeliveries(link: Link, ch: Channel, s: seq<byte>, n: nat, k: nat)
    requires Invariant(link, ch) && DeliversAt(link, ch, s, k) && k <= n <= |s|
    ensures k <= n - |Pending(Run(link, ch, s[..n]))|
    decreases n
  {
    RunPrefix(link, ch, s, n);
    RunInvariant(link, ch, s[..n - 1]);
    PendingGrowsByOne(link, Run(link, ch, s[..n - 1]), s[n - 1]);
    if k < n {
      PendingAfterDeliveries(link, ch, s, n - 1, k);
    }
  }

  /** A delivered message is well formed, and the bytes just consumed end with exactly its wire form. */
  lemma {:induction false} StreamSoundness(link: Link, ch: Channel, s: seq<byte>, n: nat)
    requires Invariant(link, ch) && Resting(ch) && DeliversAt(link, ch, s, n)
    ensures var m := Run(link, ch, s[..n]).msg;
            WellFormed(link, m) && EndsWith(s[..n], Wire(m))
  {
    assert s[..n] == s[..n - 1] + [s[n - 1]];
    RunPrefix(link, ch, s, n);
    DeliveryEndsStream(link, ch, s[..n - 1], s[n - 1]);
  }

  lemma {:induction false} WireLength(link: Link, ch: Channel, s: seq<byte>, n: nat)
    requires Invariant(link, ch) && Resting(ch) && DeliversAt(link, ch, s, n)
    ensures |Wire(Run(link, ch, s[..n]).msg)| == |Pending(Run(link, ch, s[..n - 1]))| + 1
  {
    RunPrefix(link, ch, s, n);
    DeliveryEndsStream(link, ch, s[..n - 1], s[n - 1]);
  }

  /** The bytes of a delivered message lie wholly after every earlier delivery. */
  lemma {:induction false} DeliveriesDisjoint(link: Link, ch: Channel, s: seq<byte>, k: nat, n: nat)
    requires Invariant(link, ch) && Resting(ch) && k < n
    requires DeliversAt(link, ch, s, k) && DeliversAt(link, ch, s, n)
    ensures k <= n - |Wire(Run(link, ch, s[..n]).msg)|
  {
    WireLength(link, ch, s, n);
    PendingAfterDeliveries(link, ch, s, n - 1, k);
  }

  lemma {:induction false} DeliveryEndsStream(link: Link, ch: Channel, p: seq<byte>, c: byte)
    requires Invariant(link, ch) && Resting(ch)
    requires Step(link, Run(link, ch, p), c).status.msgReceived
    ensures var m := Step(link, Run(link, ch, p), c).msg;
            && WellFormed(link, m) && EndsWith(p + [c], Wire(m)) && |Wire(m)| == |Pending(Run(link, ch, p))| + 1
  {
    PendingIsSuffix(link, ch, p);
    RunInvariant(link, ch, p);
    StepSound(link, Run(link, ch, p), c);
    EndsWithSnoc(p, Pending(Run(link, ch, p)), c);
  }

  // ----- Composition of runs

  lemma {:induction false} RunConcat(link: Link, ch: Channel, s: seq<byte>, t: seq<byte>)
    ensures Run(link, ch, s + t) == Run(link, Run(link, ch, s), t)
    ensures Delivered(link, ch, s + t) == Delivered(link, ch, s) + Delivered(link, Run(link, ch, s), t)
    decreases |t|
  {
    if t == [] {
      assert s + t == s;
    } else {
      var u := t[..|t| - 1];
      RunConcat(link, ch, s, u);
      assert (s + t)[..|s + t| - 1] == s + u;
    }
  }

  lemma {:induction false} RunOne(link: Link, ch: Channel, c: byte)
    ensures Run(link, ch, [c]) == Step(link, ch, c)
    ensures Delivered(link, ch, [c]) == if Step(link, ch, c).status.msgReceived then [Step(link, ch, c).msg] else []
  {
    assert [c][..0] == [];
    assert Run(link, ch, [c]) == Step(link, Run(link, ch, []), c);
  }

  // ----- A whole frame is delivered exactly when its checksum matches

  lemma {:induction false} CollectOne(link: Link, before: Channel, body: seq<byte>, n: nat)
    requires Invariant(link, before) && BodyShape(body) && 0 < n < |body| && Pending(before) == body[..n]
    ensures var after := Step(link, before, body[n]);
            Pending(after) == body[..n + 1] && !after.status.msgReceived
  {
    PendingLength(link, before);
    assert n >= 2 ==> body[..n][1] == body[1];
    StepCollecting(link, before, body[n]);
    assert body[..n + 1] == body[..n] + [body[n]];
  }

  /** While a body is incomplete the parser only collects it. */
  lemma {:induction false} CollectBody(link: Link, ch: Channel, body: seq<byte>, n: nat)
    requires Invariant(link, ch) && Resting(ch) && BodyShape(body) && 0 < n <= |body|
    ensures Pending(Run(link, ch, body[..n])) == body[..n] && Delivered(link, ch, body[..n]) == []
    decreases n
  {
    var p, c := body[..n - 1], body[n - 1];
    assert body[..n] == p + [c];
    RunSnoc(link, ch, p, c);
    if n == 1 {
      StepResting(link, ch, c);
    } else {
      CollectBody(link, ch, body, n - 1);
      RunInvariant(link, ch, p);
      CollectOne(link, Run(link, ch, p), body, n - 1);
    }
  }

  /** How far into a frame the parser is, read off the number of pending bytes. */
  lemma {:induction false} PendingLength(link: Link, ch: Channel)
    requires Invariant(link, ch)
    ensures var p := Pending(ch);
            && (Resting(ch) <==> p == [])
            && (|p| >= 2 ==> p[1] == ch.msg.len && |p| - 7 <= p[1])
            && (ch.status.state.GotPayload? <==> |p| >= 2 && |p| - 6 == p[1])
            && (ch.status.state.GotCrc1? <==> |p| >= 2 && |p| - 7 == p[1])
  {
  }

  lemma {:induction false} BodyCollected(link: Link, ch: Channel, body: seq<byte>)
    requires Invariant(link, ch) && BodyShape(body) && Pending(ch) == body
    ensures ch.status.state.GotPayload? && Body(ch.msg) == body && ch.msg.msgid == body[5]
  {
    PendingLength(link, ch);
  }

  /** The two bytes a frame body must be followed by. */
  function CheckBytes(link: Link, body: seq<byte>): seq<byte>
    requires BodyShape(body)
  {
    var crc := BodyCrc(link.accumulate, link.extra(body[5]), body);
    [LowByte(crc), HighByte(crc)]
  }

  lemma {:induction false} RunTwo(link: Link, ch: Channel, k1: byte, k2: byte)
    ensures var ch1 := Run(link, ch, [k1]);
            && ch1 == Step(link, ch, k1) && Run(link, ch, [k1, k2]) == Step(link, ch1, k2)
            && Delivered(link, ch, [k1, k2]) == Delivered(link, ch, [k1]) + Delivered(link, ch1, [k2])
  {
    assert [k1] + [k2] == [k1, k2];
    RunConcat(link, ch, [k1], [k2]);
    RunOne(link, ch, k1);
    RunOne(link, Run(link, ch, [k1]), k2);
  }

  lemma {:induction false} TwoChecks(link: Link, ch: Channel, body: seq<byte>, k1: byte, k2: byte)
    requires Invariant(link, ch) && BodyShape(body) && Pending(ch) == body
    requires [k1, k2] == CheckBytes(link, body)
    ensures var ch1 := Step(link, ch, k1);
            var ch2 := Step(link, ch1, k2);
            && !ch1.status.msgReceived && ch2.status.msgReceived && Resting(ch2)
            && WellFormed(link, ch2.msg) && Wire(ch2.msg) == body + [k1, k2]
  {
    BodyCollected(link, ch, body);
    var ch1 := Step(link, ch, k1);
    assert k1 == [k1, k2][0] && k2 == [k1, k2][1];
    StepFirstCheck(link, ch, k1);
    PendingLength(link, ch1);
    StepSecondCheck(link, ch1, k2);
    PendingLength(link, Step(link, ch1, k2));
    assert body + [k1] + [k2] == body + [k1, k2];
  }

  lemma {:induction false} ChecksMatch(link: Link, ch: Channel, body: seq<byte>, k1: byte, k2: byte)
    requires Invariant(link, ch) && BodyShape(body) && Pending(ch) == body
    requires [k1, k2] == CheckBytes(link, body)
    ensures var ds := Delivered(link, ch, [k1, k2]);
            && Resting(Run(link, ch, [k1, k2]))
            && |ds| == 1 && WellFormed(link, ds[0]) && Wire(ds[0]) == body + [k1, k2]
  {
    RunTwo(link, ch, k1, k2);
    RunOne(link, ch, k1);
    RunOne(link, Step(link, ch, k1), k2);
    TwoChecks(link, ch, body, k1, k2);
  }

  lemma {:induction false} ChecksFail(link: Link, ch: Channel, body: seq<byte>, k1: byte, k2: byte)
    requires Invariant(link, ch) && BodyShape(body) && Pending(ch) == body
    requires [k1, k2] != CheckBytes(link, body)
    ensures Delivered(link, ch, [k1, k2]) == []
  {
    RunTwo(link, ch, k1, k2);
    BodyCollected(link, ch, body);
    var ch1 := Step(link, ch, k1);
    StepFirstCheck(link, ch, k1);
    RunOne(link, ch, k1);
    RunOne(link, ch1, k2);
    PendingLength(link, ch1);
    if k1 == CheckBytes(link, body)[0] {
      StepSecondCheck(link, ch1, k2);
    } else if Resting(ch1) {
      StepResting(link, ch1, k2);
    } else {
      StepCollecting(link, ch1, k2);
    }
  }

  /**
   * For any byte sequence of the shape of a frame, the parser delivers exactly one message when the
   * last two bytes are the checksum of the rest, and none otherwise. A delivery leaves it at rest.
   */
  lemma {:induction false} FrameDelivery(link: Link, ch: Channel, body: seq<byte>, k1: byte, k2: byte)
    requires Invariant(link, ch) && Resting(ch) && BodyShape(body)
    ensures var frame := body + [k1, k2];
            var ds := Delivered(link, ch, frame);
            if [k1, k2] == CheckBytes(link, body) then
              Resting(Run(link, ch, frame)) && |ds| == 1 && WellFormed(link, ds[0]) && Wire(ds[0]) == frame
            else ds == []
  {
    CollectBody(link, ch, body, |body|);
    assert body[..|body|] == body;
    RunInvariant(link, ch, body);
    RunConcat(link, ch, body, [k1, k2]);
    if [k1, k2] == CheckBytes(link, body) {
      ChecksMatch(link, Run(link, ch, body), body, k1, k2);
    } else {
      ChecksFail(link, Run(link, ch, body), body, k1, k2);
    }
  }

  // ----- Round trip of finalised messages

  /** The wire form of a list of messages sent one after another. */
  function WireAll(ms: seq<Message>): seq<byte> {
    if ms == [] then [] else WireAll(ms[..|ms| - 1]) + Wire(ms[|ms| - 1])
  }

  predicate AllWellFormed(link: Link, ms: seq<Message>) {
    forall i :: 0 <= i < |ms| ==> WellFormed(link, ms[i])
  }

  predicate SameMessages(a: seq<Message>, b: seq<Message>) {
    |a| == |b| && forall i :: 0 <= i < |a| ==> SameMessage(a[i], b[i])
  }

  lemma {:induction false} WireDelivered(link: Link, ch: Channel, m: Message)
    requires Invariant(link, ch) && Resting(ch) && WellFormed(link, m)
    ensures var ds := Delivered(link, ch, Wire(m));
            Resting(Run(link, ch, Wire(m))) && |ds| == 1 && SameMessage(ds[0], m)
  {
    FrameDelivery(link, ch, Body(m), LowByte(m.checksum), HighByte(m.checksum));
    WireDetermines(Delivered(link, ch, Wire(m))[0], m);
  }

  lemma {:induction false} SameMessagesSnoc(a: seq<Message>, b: seq<Message>, x: seq<Message>, m: Message)
    requires SameMessages(a, b) && |x| == 1 && SameMessage(x[0], m)
    ensures SameMessages(a + x, b + [m])
  {
  }

  /** From rest, well-formed messages are delivered one per frame, whatever bytes they contain. */
  lemma {:induction false} RoundTrip(link: Link, ch: Channel, ms: seq<Message>)
    requires Invariant(link, ch) && Resting(ch) && AllWellFormed(link, ms)
    ensures Resting(Run(link, ch, WireAll(ms))) && SameMessages(Delivered(link, ch, WireAll(ms)), ms)
    decreases |ms|
  {
    if ms != [] {
      var n := |ms| - 1;
      var before, last := WireAll(ms[..n]), Wire(ms[n]);
      RoundTrip(link, ch, ms[..n]);
      RunInvariant(link, ch, before);
      WireDelivered(link, Run(link, ch, before), ms[n]);
      RunConcat(link, ch, before, last);
      SameMessagesSnoc(Delivered(link, ch, before), ms[..n], Delivered(link, Run(link, ch, before), last), ms[n]);
      assert ms == ms[..n] + [ms[n]];
    }
  }

  // ----- Bounded resynchronisation

  /** The longest the parser can stay inside the current frame. */
  function Remaining(ch: Channel): nat {
    var p := Pending(ch);
    if p == [] then 0
    else if |p| == 1 then 262
    else if |p| <= 8 + ch.msg.len then 8 + ch.msg.len - |p|
    else 0
  }

  lemma {:induction false} StepApproachesRest(link: Link, ch: Channel, c: byte)
    requires Invariant(link, ch) && c != MAVLINK_STX
    ensures Remaining(Step(link, ch, c)) <= if Remaining(ch) == 0 then 0 else Remaining(ch) - 1
    ensures Remaining(ch) == 0 <==> Resting(ch)
  {
    var after := Step(link, ch, c);
    PendingLength(link, ch);
    if Resting(ch) {
      StepResting(link, ch, c);
    } else if Collecting(ch) {
      StepCollecting(link, ch, c);
      StepCollectingInvariant(link, ch, c);
      PendingLength(link, after);
      assert |Pending(ch)| >= 2 ==> Pending(after)[1] == Pending(ch)[1];
    } else if ch.status.state.GotPayload? {
      StepFirstCheck(link, ch, c);
    } else {
      StepSecondCheck(link, ch, c);
    }
  }

  lemma {:induction false} NoiseBringsRest(link: Link, ch: Channel, noise: seq<byte>)
    requires Invariant(link, ch) && MAVLINK_STX !in noise
    ensures Remaining(Run(link, ch, noise)) <= if Remaining(ch) <= |noise| then 0 else Remaining(ch) - |noise|
    decreases |noise|
  {
    if noise != [] {
      var p := noise[..|noise| - 1];
      NoiseBringsRest(link, ch, p);
      RunInvariant(link, ch, p);
      StepApproachesRest(link, Run(link, ch, p), noise[|noise| - 1]);
    }
  }

  lemma {:induction false} NoiseDeliversOnce(link: Link, ch: Channel, noise: seq<byte>)
    requires Invariant(link, ch) && MAVLINK_STX !in noise
    ensures |Delivered(link, ch, noise)| <= 1
    ensures |Delivered(link, ch, noise)| == 1 ==> Resting(Run(link, ch, noise))
    decreases |noise|
  {
    if noise != [] {
      var p, c := noise[..|noise| - 1], noise[|noise| - 1];
      NoiseDeliversOnce(link, ch, p);
      RunInvariant(link, ch, p);
      var before := Run(link, ch, p);
      StepSound(link, before, c);
      PendingLength(link, Step(link, before, c));
      if Resting(before) {
        StepResting(link, before, c);
      }
    }
  }

  /**
   * From any state the parser can be in, 262 bytes without a start marker bring it to rest, after at
   * most one delivery, and every message sent after them is delivered.
   */
  lemma {:induction false} Resynchronises(link: Link, ch: Channel, noise: seq<byte>, ms: seq<Message>)
    requires Invariant(link, ch) && MAVLINK_STX !in noise && |noise| >= 262 && AllWellFormed(link, ms)
    ensures Resting(Run(link, ch, noise)) && |Delivered(link, ch, noise)| <= 1
    ensures var early := |Delivered(link, ch, noise)|;
            var ds := Delivered(link, ch, noise + WireAll(ms));
            early <= |ds| && SameMessages(ds[early..], ms)
  {
    NoiseBringsRest(link, ch, noise);
    NoiseDeliversOnce(link, ch, noise);
    PendingLength(link, ch);
    var rest := Run(link, ch, noise);
    RunInvariant(link, ch, noise);
    StepApproachesRest(link, rest, 0);
    RoundTrip(link, rest, ms);
    RunConcat(link, ch, noise, WireAll(ms));
    var early, late := Delivered(link, ch, noise), Delivered(link, rest, WireAll(ms));
    assert (early + late)[|early|..] == late;
  }

  // ----- Corrupted frames

  function X25(extra: byte -> byte): Link {
    Link(Accumulate, extra)
  }

  lemma {:induction false} CorruptionChangesCrc(extraByte: byte, good: seq<byte>, bad: seq<byte>, at: nat)
    requires |good| > 0 && DifferOnlyNear(good, bad, at) && good[0] == bad[0]
    requires BodyCrc(Accumulate, extraByte, good) == BodyCrc(Accumulate, extraByte, bad)
    ensures good == bad
  {
    var p, q := good[1..], bad[1..];
    AccumulateInjective(extraByte, AccumulateAll(Accumulate, X25_INIT_CRC, p),
                                   AccumulateAll(Accumulate, X25_INIT_CRC, q));
    assert good == [good[0]] + p && bad == [bad[0]] + q;
    if at == 0 {
      assert DifferOnlyNear(q, p, 0);
      BurstDetected(X25_INIT_CRC, q, p, 0);
    } else {
      assert DifferOnlyNear(q, p, at - 1);
      BurstDetected(X25_INIT_CRC, q, p, at - 1);
    }
  }

  /**
   * Under the X.25 checksum, changing one byte or two adjacent bytes of a frame body, other than its
   * start marker, length and message id, means that nothing is delivered while it is consumed.
   */
  lemma {:induction false} CorruptionRejected(extra: byte -> byte, ch: Channel, m: Message, bad: seq<byte>, at: nat)
    requires Invariant(X25(extra), ch) && Resting(ch) && WellFormed(X25(extra), m)
    requires DifferOnlyNear(Body(m), bad, at) && Body(m) != bad
    requires bad[0] == m.magic && bad[1] == m.len && bad[5] == m.msgid
    ensures Delivered(X25(extra), ch, bad + [LowByte(m.checksum), HighByte(m.checksum)]) == []
  {
    var k1, k2 := LowByte(m.checksum), HighByte(m.checksum);
    var crc := BodyCrc(Accumulate, extra(m.msgid), bad);
    FrameDelivery(X25(extra), ch, bad, k1, k2);
    if [k1, k2] == CheckBytes(X25(extra), bad) {
      assert [k1, k2][0] == LowByte(crc) && [k1, k2][1] == HighByte(crc);
      BytesDetermineChecksum(m.checksum, crc);
      CorruptionChangesCrc(extra(m.msgid), Body(m), bad, at);
    }
  }
}
