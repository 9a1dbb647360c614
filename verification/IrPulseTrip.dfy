/** The protocols that tell bits apart by pulse length: what is sent is what is decoded. */
module IrPulseTrip {
  import opened IrSignal
  import opened IrProtocol
  import opened IrSend
  import opened IrDecode
  import opened Options

  ghost predicate Entry(b: Buffer, runs: seq<Pulse>, i: nat)
    requires i < |runs| < RAWBUF
  {
    MeasuresPulse(b[1 + i], runs[i])
  }

  /** The raw buffer after a frame: a gap long enough for every decoder, and a measurement of each recorded run. */
  ghost predicate Frame(b: Buffer, rawlen: nat, runs: seq<Pulse>) {
    && 1 <= rawlen <= RAWBUF && rawlen == 1 + |runs|
    && b[0] >= SANYO_DOUBLE_SPACE_USECS
    && forall i: nat :: i < |runs| ==> Entry(b, runs, i)
  }

  // ----- Rows of two-pulse bits

  predicate TwoPulses(shape: (nat, bool) -> seq<Pulse>, n: nat, bits: seq<bool>)
    requires n <= |bits|
  {
    forall i :: 0 <= i < n ==> |shape(i, bits[i])| == 2
  }

  lemma {:induction false} RowAt(bits: seq<bool>, shape: (nat, bool) -> seq<Pulse>, i: nat)
    requires TwoPulses(shape, |bits|, bits) && i < |bits|
    ensures |Row(bits, shape)| == 2 * |bits|
    ensures Row(bits, shape)[2 * i] == shape(i, bits[i])[0] && Row(bits, shape)[2 * i + 1] == shape(i, bits[i])[1]
    decreases |bits|
  {
    var n := |bits| - 1;
    var front := bits[..n];
    assert TwoPulses(shape, n, front);
    if n == 0 {
      assert Row(front, shape) == [];
    } else {
      RowAt(front, shape, if i < n then i else 0);
    }
  }

  lemma {:induction false} RowLength(bits: seq<bool>, shape: (nat, bool) -> seq<Pulse>)
    requires TwoPulses(shape, |bits|, bits)
    ensures |Row(bits, shape)| == 2 * |bits|
  {
    if bits != [] {
      RowAt(bits, shape, 0);
    }
  }

  /** Each bit is a mark and a space. */
  predicate MarkSpace(shape: (nat, bool) -> seq<Pulse>, bits: seq<bool>) {
    forall i :: 0 <= i < |bits| ==>
      var s := shape(i, bits[i]);
      |s| == 2 && s[0].level == MARK && s[0].us > 0 && s[1].level == SPACE && s[1].us > 0
  }

  lemma {:induction false} HeaderAndRowAlternate(mark: Pulse, space: Pulse, bits: seq<bool>, shape: (nat, bool) -> seq<Pulse>)
    requires mark.level == MARK && mark.us > 0 && space.level == SPACE && space.us > 0 && MarkSpace(shape, bits)
    ensures Alternating([mark, space] + Row(bits, shape))
  {
    RowLength(bits, shape);
    var all := [mark, space] + Row(bits, shape);
    forall i | 0 <= i < |all|
      ensures all[i].us > 0 && all[i].level == LevelAt(i)
    {
      if i >= 2 {
        RowAt(bits, shape, (i - 2) / 2);
      }
    }
  }

  lemma {:induction false} AlternatingAppend(runs: seq<Pulse>, p: Pulse)
    requires Alternating(runs) && p.level == LevelAt(|runs|) && p.us > 0
    ensures Alternating(runs + [p])
  {
  }

  lemma {:induction false} EmptySpaceUnheard(wave: seq<Pulse>, sent: seq<Pulse>)
    requires Alternating(wave) && |wave| % 2 == 1 && sent == wave + [Pulse(SPACE, 0)]
    ensures Recorded(Line(sent)) == wave
  {
    AlternatingLine(wave);
    LineSnoc(wave, Pulse(SPACE, 0));
  }

  /** A frame that ends in a mark and an empty space is recorded without that space. */
  lemma {:induction false} StopMarkRecorded(runs: seq<Pulse>, mark: Pulse, wave: seq<Pulse>)
    requires Alternating(runs) && |runs| % 2 == 0 && mark.level == MARK && mark.us > 0
    requires wave == runs + [mark, Pulse(SPACE, 0)]
    ensures Recorded(Line(wave)) == runs + [mark]
  {
    AlternatingAppend(runs, mark);
    assert wave == runs + [mark] + [Pulse(SPACE, 0)];
    EmptySpaceUnheard(runs + [mark], wave);
  }

  lemma {:induction false} AlternatingLine(wave: seq<Pulse>)
    requires Alternating(wave)
    ensures Line(wave) == wave
  {
    assert [] + wave == wave;
    LineOfAlternating([], wave);
  }

  /** A frame that ends in a space is recorded without it. */
  lemma {:induction false} LastSpaceDropped(front: seq<Pulse>, space: Pulse)
    requires Alternating(front + [space]) && space.level == SPACE
    ensures Recorded(Line(front + [space])) == front
  {
    AlternatingLine(front + [space]);
  }

  // ----- NEC, Panasonic and JVC

  function Lengths(d: Distance, b: bool): seq<Pulse> {
    [Pulse(MARK, d.mark), Pulse(SPACE, if b then d.one else d.zero)]
  }

  ghost predicate MeasuredBit(b: Buffer, k: nat, d: Distance, bits: seq<bool>, i: nat)
    requires k + 2 * |bits| <= RAWBUF && i < |bits|
  {
    && MeasuresPulse(b[k + 2 * i], Lengths(d, bits[i])[0])
    && MeasuresPulse(b[k + 2 * i + 1], Lengths(d, bits[i])[1])
  }

  /** The windows of one and zero do not overlap, even with each width a whole tick off. */
  lemma {:induction false} DistanceBitRead(b: Buffer, k: nat, d: Distance, bits: seq<bool>, i: nat)
    requires k + 2 * |bits| <= RAWBUF && i < |bits| && Times(d) && MeasuredBit(b, k, d, bits, i)
    ensures DistanceBit(b, k, i, d) && MatchSpace(b[k + 2 * i + 1], d.one) == bits[i]
  {
    OwnWindow(b[k + 2 * i], Pulse(MARK, d.mark));
    OwnWindow(b[k + 2 * i + 1], Pulse(SPACE, if bits[i] then d.one else d.zero));
  }

  lemma {:induction false} DistanceBitsRead(b: Buffer, k: nat, bits: seq<bool>, d: Distance)
    requires Times(d) && k + 2 * |bits| <= RAWBUF
    requires forall i: nat :: i < |bits| ==> MeasuredBit(b, k, d, bits, i)
    ensures DistanceBits(b, k, |bits|, d) == Some(bits)
  {
    var n := |bits|;
    forall i: nat | i < n
      ensures DistanceBit(b, k, i, d) && MatchSpace(b[k + 2 * i + 1], d.one) == bits[i]
    {
      assert MeasuredBit(b, k, d, bits, i);
      DistanceBitRead(b, k, d, bits, i);
    }
    assert bits == seq(n, i requires 0 <= i < n => MatchSpace(b[k + 2 * i + 1], d.one));
  }

  lemma {:induction false} FrameAt(b: Buffer, rawlen: nat, runs: seq<Pulse>, j: nat, k: nat)
    requires Frame(b, rawlen, runs) && j < |runs| && k == 1 + j
    ensures k < RAWBUF && MeasuresPulse(b[k], runs[j])
  {
    assert Entry(b, runs, j);
  }

  lemma {:induction false} Middle(head: seq<Pulse>, row: seq<Pulse>, tail: seq<Pulse>, j: nat)
    requires j < |row|
    ensures (head + row + tail)[|head| + j] == row[j]
  {
  }

  lemma {:induction false} PulsesOfBit(head: seq<Pulse>, bits: seq<bool>, shape: (nat, bool) -> seq<Pulse>, tail: seq<Pulse>, i: nat)
    requires TwoPulses(shape, |bits|, bits) && i < |bits|
    ensures var runs, j := head + Row(bits, shape) + tail, |head| + 2 * i;
            j + 1 < |runs| && runs[j] == shape(i, bits[i])[0] && runs[j + 1] == shape(i, bits[i])[1]
  {
    RowAt(bits, shape, i);
    Middle(head, Row(bits, shape), tail, 2 * i);
    Middle(head, Row(bits, shape), tail, 2 * i + 1);
  }

  lemma {:induction false} BitMeasured(b: Buffer, rawlen: nat, runs: seq<Pulse>, pulses: seq<Pulse>, k: nat)
    requires |pulses| == 2 && 1 <= k && k < |runs|
    requires Frame(b, rawlen, runs) && runs[k - 1] == pulses[0] && runs[k] == pulses[1]
    ensures k + 1 < RAWBUF && MeasuresPulse(b[k], pulses[0]) && MeasuresPulse(b[k + 1], pulses[1])
  {
    FrameAt(b, rawlen, runs, k - 1, k);
    FrameAt(b, rawlen, runs, k, k + 1);
  }

  lemma {:induction false} RowMeasured(b: Buffer, rawlen: nat, head: seq<Pulse>, bits: seq<bool>, shape: (nat, bool) -> seq<Pulse>,
                    tail: seq<Pulse>, i: nat, k: nat)
    requires TwoPulses(shape, |bits|, bits) && i < |bits| && k == 1 + |head| + 2 * i
    requires Frame(b, rawlen, head + Row(bits, shape) + tail)
    ensures k + 1 < RAWBUF
    ensures MeasuresPulse(b[k], shape(i, bits[i])[0]) && MeasuresPulse(b[k + 1], shape(i, bits[i])[1])
  {
    PulsesOfBit(head, bits, shape, tail, i);
    BitMeasured(b, rawlen, head + Row(bits, shape) + tail, shape(i, bits[i]), k);
  }

  /** A row of distance-coded bits in a measured frame. */
  lemma {:induction false} DistanceRowRead(b: Buffer, rawlen: nat, head: seq<Pulse>, bits: seq<bool>, shape: (nat, bool) -> seq<Pulse>,
                        tail: seq<Pulse>, d: Distance)
    requires Times(d) && Frame(b, rawlen, head + Row(bits, shape) + tail)
    requires forall i :: 0 <= i < |bits| ==> shape(i, bits[i]) == Lengths(d, bits[i])
    ensures 1 + |head| + 2 * |bits| <= RAWBUF
    ensures DistanceBits(b, 1 + |head|, |bits|, d) == Some(bits)
  {
    RowLength(bits, shape);
    var k := 1 + |head|;
    forall i: nat | i < |bits|
      ensures MeasuredBit(b, k, d, bits, i)
    {
      RowMeasured(b, rawlen, head, bits, shape, tail, i, k + 2 * i);
    }
    DistanceBitsRead(b, k, bits, d);
  }

  function NecRuns(bits: seq<bool>): seq<Pulse> {
    [Pulse(MARK, NEC_HDR_MARK), Pulse(SPACE, NEC_HDR_SPACE)] + Row(bits, NecBit) + [Pulse(MARK, NEC_BIT_MARK)]
  }

  lemma {:induction false} NecRecorded(bits: seq<bool>)
    ensures Recorded(Line(NecWave(bits))) == NecRuns(bits)
    ensures |NecRuns(bits)| == 2 * |bits| + 3
  {
    var m, s := Pulse(MARK, NEC_HDR_MARK), Pulse(SPACE, NEC_HDR_SPACE);
    HeaderAndRowAlternate(m, s, bits, NecBit);
    RowLength(bits, NecBit);
    StopMarkRecorded([m, s] + Row(bits, NecBit), Pulse(MARK, NEC_BIT_MARK), NecWave(bits));
  }

  lemma {:induction false} NecDecoded(b: Buffer, rawlen: nat, bits: seq<bool>)
    requires |bits| == NEC_BITS && Frame(b, rawlen, NecRuns(bits))
    ensures Decoded(b, rawlen) == Some(Code(NEC, NEC_BITS, Value(bits) % WORD, 0))
  {
    var head, tail := [Pulse(MARK, NEC_HDR_MARK), Pulse(SPACE, NEC_HDR_SPACE)], [Pulse(MARK, NEC_BIT_MARK)];
    RowLength(bits, NecBit);
    FrameAt(b, rawlen, NecRuns(bits), 0, 1);
    FrameAt(b, rawlen, NecRuns(bits), 1, 2);
    OwnWindow(b[1], head[0]);
    OwnWindow(b[2], head[1]);
    DistanceRowRead(b, rawlen, head, bits, NecBit, tail, NEC_TIMES);
  }

  function PanasonicRuns(bits: seq<bool>): seq<Pulse> {
    [Pulse(MARK, PANASONIC_HDR_MARK), Pulse(SPACE, PANASONIC_HDR_SPACE)] + Row(bits, PanasonicBit)
    + [Pulse(MARK, PANASONIC_BIT_MARK)]
  }

  lemma {:induction false} PanasonicRecorded(bits: seq<bool>)
    ensures Recorded(Line(PanasonicWave(bits))) == PanasonicRuns(bits)
    ensures |PanasonicRuns(bits)| == 2 * |bits| + 3
  {
    var m, s := Pulse(MARK, PANASONIC_HDR_MARK), Pulse(SPACE, PANASONIC_HDR_SPACE);
    HeaderAndRowAlternate(m, s, bits, PanasonicBit);
    RowLength(bits, PanasonicBit);
    StopMarkRecorded([m, s] + Row(bits, PanasonicBit), Pulse(MARK, PANASONIC_BIT_MARK), PanasonicWave(bits));
  }

  /** The first two entries of a Panasonic frame are in the windows of no decoder tried before. */
  lemma {:induction false} PanasonicRejectedEarlier(b: Buffer, rawlen: nat)
    requires rawlen <= RAWBUF && b[0] >= SANYO_DOUBLE_SPACE_USECS
    requires MeasuresPulse(b[1], Pulse(MARK, PANASONIC_HDR_MARK))
    requires MeasuresPulse(b[2], Pulse(SPACE, PANASONIC_HDR_SPACE))
    ensures NecCode(b, rawlen) == SonyCode(b, rawlen) == SanyoCode(b, rawlen) == MitsubishiCode(b, rawlen) == None
    ensures Rc5Code(b, rawlen) == Rc6Code(b, rawlen) == None
  {
  }

  lemma {:induction false} PanasonicDecoded(b: Buffer, rawlen: nat, bits: seq<bool>)
    requires |bits| == PANASONIC_BITS && Frame(b, rawlen, PanasonicRuns(bits))
    ensures Decoded(b, rawlen)
         == Some(Code(PANASONIC, PANASONIC_BITS, Value(bits) % WORD, Value(bits) / WORD % 0x1_0000))
  {
    var head := [Pulse(MARK, PANASONIC_HDR_MARK), Pulse(SPACE, PANASONIC_HDR_SPACE)];
    RowLength(bits, PanasonicBit);
    FrameAt(b, rawlen, PanasonicRuns(bits), 0, 1);
    FrameAt(b, rawlen, PanasonicRuns(bits), 1, 2);
    PanasonicRejectedEarlier(b, rawlen);
    DistanceRowRead(b, rawlen, head, bits, PanasonicBit, [Pulse(MARK, PANASONIC_BIT_MARK)], PANASONIC_TIMES);
  }

  function JvcRuns(bits: seq<bool>): seq<Pulse> {
    [Pulse(MARK, JVC_HDR_MARK), Pulse(SPACE, JVC_HDR_SPACE)] + Row(bits, JvcBit) + [Pulse(MARK, JVC_BIT_MARK)]
  }

  lemma {:induction false} JvcRecorded(bits: seq<bool>)
    ensures Recorded(Line(JvcWave(bits, false))) == JvcRuns(bits)
    ensures |JvcRuns(bits)| == 2 * |bits| + 3
  {
    var m, s := Pulse(MARK, JVC_HDR_MARK), Pulse(SPACE, JVC_HDR_SPACE);
    HeaderAndRowAlternate(m, s, bits, JvcBit);
    RowLength(bits, JvcBit);
    StopMarkRecorded([m, s] + Row(bits, JvcBit), Pulse(MARK, JVC_BIT_MARK), JvcWave(bits, false));
  }

  /** The header mark of JVC is in NEC's window too: only the length of the frame tells them apart. */
  lemma {:induction false} JvcRejectedEarlier(b: Buffer, rawlen: nat)
    requires 4 < rawlen < 2 * NEC_BITS + 4 && b[0] >= SANYO_DOUBLE_SPACE_USECS
    requires MeasuresPulse(b[1], Pulse(MARK, JVC_HDR_MARK))
    ensures NecCode(b, rawlen) == SonyCode(b, rawlen) == SanyoCode(b, rawlen) == MitsubishiCode(b, rawlen) == None
    ensures Rc5Code(b, rawlen) == Rc6Code(b, rawlen) == PanasonicCode(b) == None
  {
  }

  lemma {:induction false} JvcDecoded(b: Buffer, rawlen: nat, bits: seq<bool>)
    requires |bits| == JVC_BITS && Frame(b, rawlen, JvcRuns(bits))
    ensures Decoded(b, rawlen) == Some(Code(JVC, JVC_BITS, Value(bits) % WORD, 0))
  {
    var head, last := [Pulse(MARK, JVC_HDR_MARK), Pulse(SPACE, JVC_HDR_SPACE)], Pulse(MARK, JVC_BIT_MARK);
    RowLength(bits, JvcBit);
    var runs := JvcRuns(bits);
    FrameAt(b, rawlen, runs, 0, 1);
    FrameAt(b, rawlen, runs, 1, 2);
    FrameAt(b, rawlen, runs, 34, 35);
    JvcRejectedEarlier(b, rawlen);
    OwnWindow(b[1], head[0]);
    OwnWindow(b[2], head[1]);
    OwnWindow(b[35], last);
    DistanceRowRead(b, rawlen, head, bits, JvcBit, [last], JVC_TIMES);
  }

  /** A JVC frame sent as a repeat has no header. */
  function JvcRepeatRuns(bits: seq<bool>): seq<Pulse> {
    Row(bits, JvcBit) + [Pulse(MARK, JVC_BIT_MARK)]
  }

  lemma {:induction false} WithoutHeader(mark: Pulse, space: Pulse, row: seq<Pulse>)
    requires Alternating([mark, space] + row)
    ensures Alternating(row)
  {
    forall i | 0 <= i < |row|
      ensures row[i].us > 0 && row[i].level == LevelAt(i)
    {
      assert ([mark, space] + row)[i + 2] == row[i];
    }
  }

  lemma {:induction false} JvcRepeatRecorded(bits: seq<bool>)
    ensures Recorded(Line(JvcWave(bits, true))) == JvcRepeatRuns(bits)
    ensures |JvcRepeatRuns(bits)| == 2 * |bits| + 1
  {
    var m, s := Pulse(MARK, JVC_HDR_MARK), Pulse(SPACE, JVC_HDR_SPACE);
    var row, last := Row(bits, JvcBit), Pulse(MARK, JVC_BIT_MARK);
    HeaderAndRowAlternate(m, s, bits, JvcBit);
    RowLength(bits, JvcBit);
    WithoutHeader(m, s, row);
    StopMarkRecorded(row, last, JvcWave(bits, true));
  }

  /** It is reported as a repeat, whatever its bits. */
  lemma {:induction false} JvcRepeatDecoded(b: Buffer, rawlen: nat, bits: seq<bool>)
    requires |bits| == JVC_BITS && Frame(b, rawlen, JvcRepeatRuns(bits))
    ensures Decoded(b, rawlen) == Some(Code(JVC, 0, REPEAT, 0))
  {
    RowLength(bits, JvcBit);
    RowAt(bits, JvcBit, 0);
    var runs := JvcRepeatRuns(bits);
    FrameAt(b, rawlen, runs, 0, 1);
    FrameAt(b, rawlen, runs, 1, 2);
    FrameAt(b, rawlen, runs, 32, 33);
    assert Rc5Code(b, rawlen) == None;
  }

  // ----- Sony

  function SonyRuns(bits: seq<bool>): seq<Pulse>
    requires bits != []
  {
    var all := [Pulse(MARK, SONY_HDR_MARK), Pulse(SPACE, SONY_HDR_SPACE)] + Row(bits, SonyBit);
    all[..|all| - 1]
  }

  lemma {:induction false} SonyRecorded(bits: seq<bool>)
    requires bits != []
    ensures Recorded(Line(SonyWave(bits))) == SonyRuns(bits)
    ensures |SonyRuns(bits)| == 2 * |bits| + 1
  {
    var m, s := Pulse(MARK, SONY_HDR_MARK), Pulse(SPACE, SONY_HDR_SPACE);
    HeaderAndRowAlternate(m, s, bits, SonyBit);
    RowLength(bits, SonyBit);
    RowAt(bits, SonyBit, |bits| - 1);
    var all := SonyWave(bits);
    assert all == SonyRuns(bits) + [all[|all| - 1]];
    LastSpaceDropped(SonyRuns(bits), all[|all| - 1]);
  }

  ghost predicate MeasuredSony(b: Buffer, k: nat, bits: seq<bool>, i: nat)
    requires k + 2 * |bits| <= RAWBUF && i < |bits|
  {
    && MeasuresPulse(b[k + 2 * i], Pulse(SPACE, SONY_HDR_SPACE))
    && MeasuresPulse(b[k + 2 * i + 1], Pulse(MARK, if bits[i] then SONY_ONE_MARK else SONY_ZERO_MARK))
  }

  lemma {:induction false} SonyBitsRead(b: Buffer, rawlen: nat, bits: seq<bool>, k: nat)
    requires rawlen == k + 2 * |bits| && rawlen <= RAWBUF
    requires forall i: nat :: i < |bits| ==> MeasuredSony(b, k, bits, i)
    ensures WidthBits(b, rawlen, k, SONY_TIMES) == Some(bits)
    decreases |bits|
  {
    if bits != [] {
      var rest, next := bits[1..], k + 2;
      assert MeasuredSony(b, k, bits, 0);
      forall i: nat | i < |rest|
        ensures MeasuredSony(b, next, rest, i)
      {
        assert MeasuredSony(b, k, bits, i + 1);
      }
      SonyBitsRead(b, rawlen, rest, next);
      assert bits == [bits[0]] + rest;
    }
  }

  lemma {:induction false} SonyRowMeasured(b: Buffer, rawlen: nat, bits: seq<bool>, i: nat)
    requires i < |bits| && Frame(b, rawlen, SonyRuns(bits))
    ensures 2 + 2 * |bits| <= RAWBUF && MeasuredSony(b, 2, bits, i)
  {
    RowLength(bits, SonyBit);
    var runs, row := SonyRuns(bits), Row(bits, SonyBit);
    RowAt(bits, SonyBit, i);
    assert runs[2 * i + 2] == row[2 * i];
    if i > 0 {
      RowAt(bits, SonyBit, i - 1);
      assert runs[2 * i + 1] == row[2 * (i - 1) + 1];
    }
    FrameAt(b, rawlen, runs, 2 * i + 1, 2 + 2 * i);
    FrameAt(b, rawlen, runs, 2 * i + 2, 2 + 2 * i + 1);
  }

  lemma {:induction false} SonyAccepted(b: Buffer, rawlen: nat, bits: seq<bool>)
    requires |bits| >= SONY_BITS && rawlen == 2 + 2 * |bits| <= RAWBUF && b[0] >= SANYO_DOUBLE_SPACE_USECS
    requires MeasuresPulse(b[1], Pulse(MARK, SONY_HDR_MARK)) && WidthBits(b, rawlen, 2, SONY_TIMES) == Some(bits)
    ensures NecCode(b, rawlen) == None && SonyCode(b, rawlen) == Some(Code(SONY, |bits|, Value(bits) % WORD, 0))
  {
  }

  lemma {:induction false} SonyDecoded(b: Buffer, rawlen: nat, bits: seq<bool>)
    requires |bits| >= SONY_BITS && Frame(b, rawlen, SonyRuns(bits))
    ensures Decoded(b, rawlen) == Some(Code(SONY, |bits|, Value(bits) % WORD, 0))
  {
    RowLength(bits, SonyBit);
    FrameAt(b, rawlen, SonyRuns(bits), 0, 1);
    forall i: nat | i < |bits|
      ensures MeasuredSony(b, 2, bits, i)
    {
      SonyRowMeasured(b, rawlen, bits, i);
    }
    SonyBitsRead(b, rawlen, bits, 2);
    SonyAccepted(b, rawlen, bits);
  }
}
