/** From the sender's data word to the decoder's result, through the line, its measurement and the interrupt handler. */
module IrEndToEnd {
  import opened IrSignal
  import opened IrProtocol
  import opened IrSend
  import opened IrReceive
  import D = IrDecode
  import opened IrPulseTrip
  import opened IrBiphase
  import opened IrBiphaseTrip
  import opened Options

  // ----- Frames the receiver can record

  predicate Fits(p: Pulse) {
    300 <= p.us <= if p.level == MARK then 9000 else 4500
  }

  predicate Transmissible(runs: seq<Pulse>) {
    && Alternating(runs) && |runs| % 2 == 1 && |runs| < RAWBUF
    && forall i :: 0 <= i < |runs| ==> Fits(runs[i])
  }

  lemma {:induction false} WidthFits(w: nat, p: Pulse)
    requires Fits(p) && MeasuresPulse(w, p)
    ensures 1 <= w <= if p.level == MARK then 0xFFFF else GAP_TICKS
  {
  }

  lemma {:induction false} MeasuredRecordable(widths: seq<nat>, runs: seq<Pulse>)
    requires Transmissible(runs) && Measures(widths, runs)
    ensures Recordable(widths)
  {
    forall i | 0 <= i < |widths|
      ensures 1 <= widths[i] <= if i % 2 == 0 then 0xFFFF else GAP_TICKS
    {
      assert Fits(runs[i]) && runs[i].level == LevelAt(i);
      WidthFits(widths[i], runs[i]);
    }
  }

  /**
   * The receiver p, waiting for a code, hears samples: a gap, a measurement of the runs to within one tick each, and
   * silence.
   */
  ghost predicate Heard(p: Params, runs: seq<Pulse>, lead: nat, widths: seq<nat>, tail: nat, samples: seq<Level>) {
    && Sound(p) && p.rcvstate == STATE_IDLE && SANYO_DOUBLE_SPACE_USECS <= p.timer + lead + 1 < 0x1_0000
    && Measures(widths, runs) && tail >= GAP_TICKS + 2 && FrameSampled(samples, lead, widths, tail)
  }

  lemma {:induction false} HeardFrame(p: Params, runs: seq<Pulse>, lead: nat, widths: seq<nat>, tail: nat,
                                      samples: seq<Level>)
    requires Heard(p, runs, lead, widths, tail, samples) && Transmissible(runs)
    ensures var q := Run(p, samples);
            q.rcvstate == STATE_STOP && Frame(q.rawbuf, q.rawlen, runs)
  {
    MeasuredRecordable(widths, runs);
    FrameRecorded(p, lead, widths, tail, samples);
    BufferMeasures(Run(p, samples), p.timer + lead + 1, widths, runs);
  }

  lemma {:induction false} BufferMeasures(q: Params, gap: nat, widths: seq<nat>, runs: seq<Pulse>)
    requires Sound(q) && q.rawlen == 1 + |widths| && q.rawbuf[..q.rawlen] == [gap] + widths
    requires Measures(widths, runs) && gap >= SANYO_DOUBLE_SPACE_USECS
    ensures Frame(q.rawbuf, q.rawlen, runs)
  {
    assert q.rawbuf[0] == q.rawbuf[..q.rawlen][0];
    forall i: nat | i < |runs|
      ensures Entry(q.rawbuf, runs, i)
    {
      assert q.rawbuf[1 + i] == q.rawbuf[..q.rawlen][1 + i] == widths[i];
    }
  }

  // ----- The frames the senders produce are such frames

  lemma {:induction false} RowFits(bits: seq<bool>, shape: (nat, bool) -> seq<Pulse>)
    requires MarkSpace(shape, bits)
    requires forall i :: 0 <= i < |bits| ==> Fits(shape(i, bits[i])[0]) && Fits(shape(i, bits[i])[1])
    ensures forall k :: 0 <= k < |Row(bits, shape)| ==> Fits(Row(bits, shape)[k])
  {
    RowLength(bits, shape);
    forall k | 0 <= k < |Row(bits, shape)|
      ensures Fits(Row(bits, shape)[k])
    {
      RowAt(bits, shape, k / 2);
    }
  }

  lemma {:induction false} HeaderRowMark(mark: Pulse, space: Pulse, bits: seq<bool>, shape: (nat, bool) -> seq<Pulse>,
                                         stop: Pulse)
    requires mark.level == MARK && space.level == SPACE && MarkSpace(shape, bits) && stop.level == MARK
    requires Fits(mark) && Fits(space) && Fits(stop) && 2 * |bits| + 3 < RAWBUF
    requires forall i :: 0 <= i < |bits| ==> Fits(shape(i, bits[i])[0]) && Fits(shape(i, bits[i])[1])
    ensures Transmissible([mark, space] + Row(bits, shape) + [stop])
  {
    RowLength(bits, shape);
    RowFits(bits, shape);
    HeaderAndRowAlternate(mark, space, bits, shape);
    AlternatingAppend([mark, space] + Row(bits, shape), stop);
  }

  lemma {:induction false} SonyTransmissible(bits: seq<bool>)
    requires 0 < |bits| && 2 * |bits| + 1 < RAWBUF
    ensures Transmissible(SonyRuns(bits))
  {
    var m, s := Pulse(MARK, SONY_HDR_MARK), Pulse(SPACE, SONY_HDR_SPACE);
    RowLength(bits, SonyBit);
    RowFits(bits, SonyBit);
    HeaderAndRowAlternate(m, s, bits, SonyBit);
  }

  lemma {:induction false} UnitRunsTransmissible(head: seq<Pulse>, runs: seq<Pulse>, t: nat, all: seq<Pulse>)
    requires (t == RC5_T1 || t == RC6_T1) && UnitRuns(runs, t) && |runs| % 2 == 1 && |head| + |runs| < RAWBUF
    requires |head| % 2 == 0 && Alternating(head) && forall i :: 0 <= i < |head| ==> Fits(head[i])
    requires all == head + runs
    ensures Transmissible(all)
  {
    forall i | 0 <= i < |all|
      ensures all[i].us > 0 && all[i].level == LevelAt(i) && Fits(all[i])
    {
      if i >= |head| {
        assert all[i] == runs[i - |head|] && UnitRun(runs[i - |head|], t);
        assert runs[i - |head|].level == LevelAt(i - |head|) == LevelAt(i);
      } else {
        assert all[i] == head[i];
      }
    }
  }

  // ----- The messages

  datatype Message =
    | Nec(data: nat)
    | Sony(data: nat, nbits: nat)
    | Rc5(data: nat, nbits: nat)
    | Rc6(data: nat, nbits: nat)
    | Panasonic(address: nat, data: nat)
    | Jvc(data: nat)

  predicate Sendable(m: Message) {
    && m.data < WORD
    && match m
       case Nec(_) => true
       case Sony(_, n) => 12 <= n <= 32
       case Rc5(_, n) => 10 <= n <= 32
       case Rc6(_, n) => 1 <= n <= 32
       case Panasonic(address, _) => address < 0x1_0000
       case Jvc(_) => true
  }

  /** The pulses that the sender of the message's protocol puts on the line. */
  function Wave(m: Message): seq<Pulse> {
    match m
    case Nec(data) => NecWave(Sent(data, NEC_BITS))
    case Sony(data, n) => SonyWave(Digits(data, n))
    case Rc5(data, n) => Rc5Wave(Digits(data, n))
    case Rc6(data, n) => Rc6Wave(Digits(data, n))
    case Panasonic(address, data) => PanasonicWave(Digits(address, 16) + Digits(data, 32))
    case Jvc(data) => JvcWave(Digits(data, JVC_BITS), false)
  }

  /** What the receiver ought to report: the protocol, the number of bits and the bits that were sent. */
  function Meant(m: Message): D.Code {
    match m
    case Nec(data) => D.Code(D.NEC, 32, data, 0)
    case Sony(data, n) => D.Code(D.SONY, n, data % Pow2(n), 0)
    case Rc5(data, n) => D.Code(D.RC5, n, data % Pow2(n), 0)
    case Rc6(data, n) => D.Code(D.RC6, n, data % Pow2(n), 0)
    case Panasonic(address, data) => D.Code(D.PANASONIC, 48, data, address)
    case Jvc(data) => D.Code(D.JVC, 16, data % 0x1_0000, 0)
  }

  lemma {:induction false} SmallRemainder(r: nat, m: nat)
    requires r < m
    ensures r % m == r
  {
    Remainder(r, m, 0, r);
  }

  lemma {:induction false} Grows(p: nat, q: nat)
    requires q > 0
    ensures p <= p * q
  {
  }

  lemma {:induction false} DigitsWord(data: nat, n: nat)
    requires n <= 32
    ensures Value(Digits(data, n)) % WORD == data % Pow2(n)
  {
    DigitsValue(data, n);
    Pow2Word();
    Pow2Plus(n, 32 - n);
    Grows(Pow2(n), Pow2(32 - n));
    SmallRemainder(data % Pow2(n), WORD);
  }

  lemma {:induction false} SentAll(data: nat)
    ensures Sent(data, 32) == Digits(data, 32)
  {
  }

  lemma {:induction false} ValueConcat(a: seq<bool>, b: seq<bool>)
    ensures Value(a + b) == Value(a) * Pow2(|b|) + Value(b)
    decreases |b|
  {
    if b == [] {
      assert a + b == a;
    } else {
      var front, x := b[..|b| - 1], b[|b| - 1];
      assert a + b == a + front + [x] && b == front + [x];
      ValueConcat(a, front);
      ValueSnoc(a + front, x);
      ValueSnoc(front, x);
      Associate(Value(a), 2, Pow2(|front|));
      Associate(2, Value(a), Pow2(|front|));
    }
  }

  lemma {:induction false} WordParts(v: nat, upper: nat, lower: nat)
    requires v == upper * WORD + lower && upper < 0x1_0000 && lower < WORD
    ensures v % WORD == lower && v / WORD % 0x1_0000 == upper
  {
    Remainder(v, WORD, upper, lower);
    SmallRemainder(upper, 0x1_0000);
  }

  lemma {:induction false} DigitsWhole(data: nat, n: nat, bound: nat)
    requires data < bound == Pow2(n)
    ensures Value(Digits(data, n)) == data
  {
    DigitsValue(data, n);
    SmallRemainder(data, bound);
  }

  lemma {:induction false} PanasonicWord(address: nat, data: nat, bits: seq<bool>)
    requires address < 0x1_0000 && data < WORD && bits == Digits(address, 16) + Digits(data, 32)
    ensures Value(bits) % WORD == data && Value(bits) / WORD % 0x1_0000 == address
  {
    Pow2Word();
    DigitsWhole(address, 16, 0x1_0000);
    DigitsWhole(data, 32, WORD);
    ValueConcat(Digits(address, 16), Digits(data, 32));
    WordParts(Value(bits), address, data);
  }

  // ----- Every message arrives

  lemma {:induction false} NecArrives(b: D.Buffer, rawlen: nat, data: nat)
    requires data < WORD && Frame(b, rawlen, NecRuns(Sent(data, 32)))
    ensures D.Decoded(b, rawlen) == Some(Meant(Nec(data)))
  {
    SentAll(data);
    NecDecoded(b, rawlen, Digits(data, 32));
    DigitsWord(data, 32);
    Pow2Word();
    SmallRemainder(data, WORD);
  }

  lemma {:induction false} PanasonicArrives(b: D.Buffer, rawlen: nat, address: nat, data: nat, bits: seq<bool>)
    requires address < 0x1_0000 && data < WORD && bits == Digits(address, 16) + Digits(data, 32)
    requires Frame(b, rawlen, PanasonicRuns(bits))
    ensures D.Decoded(b, rawlen) == Some(Meant(Panasonic(address, data)))
  {
    PanasonicDecoded(b, rawlen, bits);
    PanasonicWord(address, data, bits);
  }

  /** The runs a receiver can record of a message. */
  function Runs(m: Message): seq<Pulse>
    requires Sendable(m)
  {
    match m
    case Nec(data) => NecRuns(Sent(data, 32))
    case Sony(data, n) => SonyRuns(Digits(data, n))
    case Rc5(data, n) => Rc5Runs(Digits(data, n))
    case Rc6(data, n) => Rc6Runs(Digits(data, n))
    case Panasonic(address, data) => PanasonicRuns(Digits(address, 16) + Digits(data, 32))
    case Jvc(data) => JvcRuns(Digits(data, JVC_BITS))
  }

  lemma {:induction false} RunsOfMessage(m: Message)
    requires Sendable(m)
    ensures Recorded(Line(Wave(m))) == Runs(m)
  {
    match m
    case Nec(data) => NecRecorded(Sent(data, 32));
    case Sony(data, n) => SonyRecorded(Digits(data, n));
    case Rc5(data, n) => Rc5Recorded(Digits(data, n));
    case Rc6(data, n) => Rc6Recorded(Digits(data, n));
    case Panasonic(address, data) => PanasonicRecorded(Digits(address, 16) + Digits(data, 32));
    case Jvc(data) => JvcRecorded(Digits(data, JVC_BITS));
  }

  lemma {:induction false} MessageTransmissible(m: Message)
    requires Sendable(m)
    ensures Transmissible(Runs(m))
  {
    match m
    case Nec(data) =>
      HeaderRowMark(Pulse(MARK, NEC_HDR_MARK), Pulse(SPACE, NEC_HDR_SPACE), Sent(data, 32), NecBit,
                    Pulse(MARK, NEC_BIT_MARK));
    case Sony(data, n) => SonyTransmissible(Digits(data, n));
    case Rc5(data, n) => Rc5Transmissible(Digits(data, n));
    case Rc6(data, n) => Rc6Transmissible(Digits(data, n));
    case Panasonic(address, data) =>
      HeaderRowMark(Pulse(MARK, PANASONIC_HDR_MARK), Pulse(SPACE, PANASONIC_HDR_SPACE),
                    Digits(address, 16) + Digits(data, 32), PanasonicBit, Pulse(MARK, PANASONIC_BIT_MARK));
    case Jvc(data) =>
      HeaderRowMark(Pulse(MARK, JVC_HDR_MARK), Pulse(SPACE, JVC_HDR_SPACE), Digits(data, JVC_BITS), JvcBit,
                    Pulse(MARK, JVC_BIT_MARK));
  }

  lemma {:induction false} Rc5Transmissible(bits: seq<bool>)
    requires |bits| <= 32
    ensures Transmissible(Rc5Runs(bits))
  {
    Rc5RunsCut(bits);
    UnitRunsTransmissible([], Rc5Runs(bits), RC5_T1, Rc5Runs(bits));
  }

  lemma {:induction false} HeaderFits()
    ensures Alternating(RC6_HEADER) && forall i :: 0 <= i < |RC6_HEADER| ==> Fits(RC6_HEADER[i])
  {
  }

  lemma {:induction false} Rc6Transmissible(bits: seq<bool>)
    requires |bits| <= 32
    ensures Transmissible(Rc6Runs(bits))
  {
    Rc6RunsCut(bits);
    HeaderFits();
    UnitRunsTransmissible(RC6_HEADER, Recorded(Body(RC6_CODING, RC6_HEAD, bits)), RC6_T1, Rc6Runs(bits));
  }

  lemma {:induction false} MessageDecoded(m: Message, b: D.Buffer, rawlen: nat)
    requires Sendable(m) && Frame(b, rawlen, Runs(m))
    ensures D.Decoded(b, rawlen) == Some(Meant(m))
  {
    match m
    case Nec(data) => NecArrives(b, rawlen, data);
    case Sony(data, n) =>
      SonyDecoded(b, rawlen, Digits(data, n));
      DigitsWord(data, n);
    case Rc5(data, n) =>
      Rc5Decoded(b, rawlen, Digits(data, n));
      DigitsWord(data, n);
    case Rc6(data, n) =>
      Rc6Decoded(b, rawlen, Digits(data, n));
      DigitsWord(data, n);
    case Panasonic(address, data) =>
      PanasonicArrives(b, rawlen, address, data, Digits(address, 16) + Digits(data, 32));
    case Jvc(data) =>
      JvcDecoded(b, rawlen, Digits(data, JVC_BITS));
      DigitsWord(data, JVC_BITS);
      Pow2Word();
  }

  /**
   * Whatever message is sent by whichever of the six senders: a receiver that waits for a code, and hears the frame
   * between a gap of at least 800 ticks and silence, with marks lengthened and spaces shortened by MARK_EXCESS and each
   * width measured to within one tick, ends in STOP with a buffer that decodes to exactly that message. No decoder
   * tried before takes it for one of its own.
   */
  lemma {:induction false} EveryMessageArrives(m: Message, p: Params, lead: nat, widths: seq<nat>, tail: nat,
                                               samples: seq<Level>)
    requires Sendable(m) && Heard(p, Recorded(Line(Wave(m))), lead, widths, tail, samples)
    ensures var q := Run(p, samples);
            q.rcvstate == STATE_STOP && D.Decoded(q.rawbuf, q.rawlen) == Some(Meant(m))
  {
    RunsOfMessage(m);
    MessageTransmissible(m);
    HeardFrame(p, Runs(m), lead, widths, tail, samples);
    var q := Run(p, samples);
    MessageDecoded(m, q.rawbuf, q.rawlen);
  }

  lemma {:induction false} RepeatTransmissible(bits: seq<bool>)
    requires |bits| == JVC_BITS
    ensures Transmissible(JvcRepeatRuns(bits))
  {
    var row, last := Row(bits, JvcBit), Pulse(MARK, JVC_BIT_MARK);
    RowLength(bits, JvcBit);
    RowFits(bits, JvcBit);
    HeaderAndRowAlternate(Pulse(MARK, JVC_HDR_MARK), Pulse(SPACE, JVC_HDR_SPACE), bits, JvcBit);
    WithoutHeader(Pulse(MARK, JVC_HDR_MARK), Pulse(SPACE, JVC_HDR_SPACE), row);
    AlternatingAppend(row, last);
  }

  /** A JVC repeat arrives as a repeat, whatever its data. */
  lemma {:induction false} RepeatArrives(data: nat, p: Params, lead: nat, widths: seq<nat>, tail: nat, samples: seq<Level>)
    requires data < WORD
    requires Heard(p, Recorded(Line(JvcWave(Digits(data, JVC_BITS), true))), lead, widths, tail, samples)
    ensures var q := Run(p, samples);
            q.rcvstate == STATE_STOP && D.Decoded(q.rawbuf, q.rawlen) == Some(D.Code(D.JVC, 0, REPEAT, 0))
  {
    var bits := Digits(data, JVC_BITS);
    JvcRepeatRecorded(bits);
    RepeatTransmissible(bits);
    HeardFrame(p, JvcRepeatRuns(bits), lead, widths, tail, samples);
    var q := Run(p, samples);
    JvcRepeatDecoded(q.rawbuf, q.rawlen, bits);
  }

  /** So what is heard determines the message up to the bits its protocol does not send. */
  lemma {:induction false} MessagesUnambiguous(m: Message, m': Message, p: Params, lead: nat, widths: seq<nat>,
                                               tail: nat, samples: seq<Level>)
    requires Sendable(m) && Heard(p, Recorded(Line(Wave(m))), lead, widths, tail, samples)
    requires Sendable(m') && Heard(p, Recorded(Line(Wave(m'))), lead, widths, tail, samples)
    ensures Meant(m) == Meant(m')
  {
    EveryMessageArrives(m, p, lead, widths, tail, samples);
    EveryMessageArrives(m', p, lead, widths, tail, samples);
  }
}
