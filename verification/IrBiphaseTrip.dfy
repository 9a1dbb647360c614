/** RC5 and RC6: what is sent is what is decoded. */
module IrBiphaseTrip {
  import opened IrSignal
  import opened IrProtocol
  import opened IrSend
  import opened IrDecode
  import opened IrPulseTrip
  import opened IrBiphase
  import opened Options

  predicate Held(levels: seq<Level>, from: nat, to: nat, level: Level)
    requires from <= to <= |levels|
  {
    forall k :: from <= k < to ==> levels[k] == level
  }

  lemma {:induction false} SliceHolds(all: seq<Level>, p: nat, u: nat, first: Level, second: Level)
    requires p + 2 * u <= |all| && all[p..p + 2 * u] == Repeat(first, u) + Repeat(second, u)
    ensures Held(all, p, p + u, first) && Held(all, p + u, p + 2 * u, second)
  {
    forall k | p <= k < p + 2 * u
      ensures all[k] == if k < p + u then first else second
    {
      assert all[k] == all[p..p + 2 * u][k - p];
    }
  }

  /** The levels of the bit at index i, at its position. */
  lemma {:induction false} BitLevels(c: Coding, start: seq<Level>, bits: seq<bool>, i: nat)
    requires i < |bits|
    ensures var all, p, u := Levels(c, start, bits), Position(c, |start|, i), HalfUnits(c, i);
            && p + 2 * u <= |all|
            && Held(all, p, p + u, First(c, bits[i])) && Held(all, p + u, p + 2 * u, Other(First(c, bits[i])))
  {
    LevelsAt(c, start, bits, i);
    SliceHolds(Levels(c, start, bits), Position(c, |start|, i), HalfUnits(c, i), First(c, bits[i]),
               Other(First(c, bits[i])));
  }

  /** The decoders' loop does not stop before a bit. */
  lemma {:induction false} BitToCome(runs: seq<Pulse>, t: nat, sent: seq<Level>, base: nat, p: Place, j: nat, u: nat, first: Level)
    requires t > 0 && u > 0 && Cut(sent, Units(runs, t)) && At(runs, t, base, p, j) && j + 2 * u <= |sent|
    requires Held(sent, j, j + u, first) && Held(sent, j + u, j + 2 * u, Other(first))
    ensures p.offset < base + |runs|
  {
    assert sent[j] == MARK || sent[j + u] == MARK;
    MoreToCome(runs, t, sent, base, p, j);
  }

  lemma {:induction false} ConsRest(bits: seq<bool>, i: nat)
    requires i < |bits|
    ensures Cons(bits[i], Some(bits[i + 1..])) == Some(bits[i..])
  {
    assert bits[i..] == [bits[i]] + bits[i + 1..];
  }

  // ----- RC5

  const RC5_START := [MARK, SPACE, MARK]

  /** From the first level of bit i on, the decoder reads the bits from i on, and stops after the last. */
  lemma {:induction false} Rc5BitsRead(b: Buffer, rawlen: nat, runs: seq<Pulse>, bits: seq<bool>, p: Place, i: nat)
    requires i <= |bits| && UnitRuns(runs, RC5_T1) && Reading(b, rawlen, 1, runs)
    requires Cut(Levels(RC5_CODING, RC5_START, bits), Units(runs, RC5_T1))
    requires At(runs, RC5_T1, 1, p, Position(RC5_CODING, 3, i))
    ensures Rc5Bits(b, rawlen, p) == Some(bits[i..])
    decreases |bits| - i
  {
    var sent, j := Levels(RC5_CODING, RC5_START, bits), Position(RC5_CODING, 3, i);
    if i < |bits| {
      var first := First(RC5_CODING, bits[i]);
      BitLevels(RC5_CODING, RC5_START, bits, i);
      BitToCome(runs, RC5_T1, sent, 1, p, j, 1, first);
      var r := Rc5BitRead(b, rawlen, runs, sent, p, j, first);
      Rc5BitsRead(b, rawlen, runs, bits, r, i + 1);
      ConsRest(bits, i);
    } else {
      MoreToCome(runs, RC5_T1, sent, 1, p, j);
      assert bits[i..] == [];
    }
  }

  /** One turn of the decoder's loop. */
  lemma {:induction false} Rc5BitRead(b: Buffer, rawlen: nat, runs: seq<Pulse>, sent: seq<Level>, p: Place, j: nat, first: Level)
    returns (r: Place)
    requires UnitRuns(runs, RC5_T1) && Reading(b, rawlen, 1, runs) && Cut(sent, Units(runs, RC5_T1))
    requires At(runs, RC5_T1, 1, p, j) && j + 2 <= |sent| && p.offset < rawlen
    requires Held(sent, j, j + 1, first) && Held(sent, j + 1, j + 2, Other(first))
    ensures Rc5Bits(b, rawlen, p) == Cons(first == SPACE, Rc5Bits(b, rawlen, r)) && At(runs, RC5_T1, 1, r, j + 2)
  {
    var q := ReadSent(b, rawlen, 1, runs, RC5_T1, sent, p, j);
    r := ReadSent(b, rawlen, 1, runs, RC5_T1, sent, q, j + 1);
  }

  lemma {:induction false} LevelsStart(c: Coding, start: seq<Level>, bits: seq<bool>)
    ensures start <= Levels(c, start, bits)
    decreases |bits|
  {
    if bits != [] {
      LevelsStart(c, start, bits[..|bits| - 1]);
    }
  }

  lemma {:induction false} AtStart(runs: seq<Pulse>, t: nat, base: nat)
    requires t > 0 && runs != [] && UnitRuns(runs, t)
    ensures At(runs, t, base, Place(base, 0), 0)
  {
    assert UnitRun(runs[0], t);
    UnitCount(runs[0], t);
    LevelInRun(runs, t, 0, 0);
    assert Units(runs[..0], t) == [];
  }

  lemma {:induction false} Rc5StartRead(b: Buffer, rawlen: nat, runs: seq<Pulse>, bits: seq<bool>) returns (p: Place)
    requires runs != [] && UnitRuns(runs, RC5_T1) && Reading(b, rawlen, 1, runs)
    requires Cut(Levels(RC5_CODING, RC5_START, bits), Units(runs, RC5_T1))
    ensures Rc5Start(b, rawlen) == Some(p) && At(runs, RC5_T1, 1, p, 3)
  {
    var sent := Levels(RC5_CODING, RC5_START, bits);
    LevelsStart(RC5_CODING, RC5_START, bits);
    var start := RC5_START;
    assert sent[0] == start[0] && sent[1] == start[1] && sent[2] == start[2];
    AtStart(runs, RC5_T1, 1);
    var p1 := ReadSent(b, rawlen, 1, runs, RC5_T1, sent, Place(1, 0), 0);
    var p2 := ReadSent(b, rawlen, 1, runs, RC5_T1, sent, p1, 1);
    p := ReadSent(b, rawlen, 1, runs, RC5_T1, sent, p2, 2);
  }

  const RC5_HEAD := [Pulse(MARK, RC5_T1), Pulse(SPACE, RC5_T1), Pulse(MARK, RC5_T1)]

  function Rc5Runs(bits: seq<bool>): seq<Pulse> {
    Recorded(Body(RC5_CODING, RC5_HEAD, bits))
  }

  lemma {:induction false} Rc5Recorded(bits: seq<bool>)
    ensures Recorded(Line(Rc5Wave(bits))) == Rc5Runs(bits)
  {
    assert [] + RC5_HEAD == RC5_HEAD;
    LineOfFrame(RC5_CODING, [], RC5_HEAD, bits, Rc5Bit, Rc5Wave(bits));
    var body := Body(RC5_CODING, RC5_HEAD, bits);
    assert [] + body == body;
  }

  lemma {:induction false} HeadUnits()
    ensures WholeUnits(RC5_HEAD, RC5_T1) && Units(RC5_HEAD, RC5_T1) == RC5_START
  {
    var m, s := Pulse(MARK, RC5_T1), Pulse(SPACE, RC5_T1);
    UnitsSnoc([], m, RC5_T1);
    UnitsSnoc([m], s, RC5_T1);
    UnitsSnoc([m, s], m, RC5_T1);
    assert [] + [m] == [m] && [m] + [s] == [m, s] && [m, s] + [m] == RC5_HEAD;
    assert Units(RC5_HEAD, RC5_T1) == Repeat(MARK, 1) + Repeat(SPACE, 1) + Repeat(MARK, 1);
  }

  /** The recorded runs are runs of one to three units that give back the levels sent but for final spaces. */
  lemma {:induction false} Rc5RunsCut(bits: seq<bool>)
    ensures var runs := Rc5Runs(bits);
            && UnitRuns(runs, RC5_T1) && Cut(Levels(RC5_CODING, RC5_START, bits), Units(runs, RC5_T1))
            && |runs| % 2 == 1 && 2 + |bits| <= |runs| <= 3 + 2 * |bits|
  {
    HeadUnits();
    BodyUnitRuns(RC5_CODING, RC5_HEAD, bits);
    BodyLevels(RC5_CODING, RC5_HEAD, bits);
    RecordedOdd(Body(RC5_CODING, RC5_HEAD, bits), RC5_T1);
    RecordedIsCut(Body(RC5_CODING, RC5_HEAD, bits), RC5_T1);
  }

  /** One unit of RC5 as first mark is in the window of no decoder tried before. */
  lemma {:induction false} Rc5RejectedEarlier(b: Buffer, rawlen: nat)
    requires rawlen <= RAWBUF && b[0] >= SANYO_DOUBLE_SPACE_USECS
    requires MeasuresPulse(b[1], Pulse(MARK, RC5_T1))
    ensures NecCode(b, rawlen) == SonyCode(b, rawlen) == SanyoCode(b, rawlen) == MitsubishiCode(b, rawlen) == None
  {
  }

  lemma {:induction false} BodyHead(c: Coding, start: seq<Pulse>, bits: seq<bool>)
    requires |start| >= 2
    ensures |Body(c, start, bits)| >= |start| && Body(c, start, bits)[0] == start[0]
    decreases |bits|
  {
    if bits != [] {
      BodyHead(c, start, bits[..|bits| - 1]);
    }
  }

  lemma {:induction false} FrameReading(b: Buffer, rawlen: nat, all: seq<Pulse>, head: seq<Pulse>, runs: seq<Pulse>)
    requires Frame(b, rawlen, all) && all == head + runs && |head| % 2 == 0
    ensures Reading(b, rawlen, 1 + |head|, runs)
  {
    var base := 1 + |head|;
    forall k: nat | k < |runs|
      ensures ReadingRun(b, base, runs, k)
    {
      FrameAt(b, rawlen, all, |head| + k, base + k);
    }
  }

  lemma {:induction false} Rc5Accepted(b: Buffer, rawlen: nat, runs: seq<Pulse>, bits: seq<bool>)
    requires rawlen >= MIN_RC5_SAMPLES + 2 && runs != [] && UnitRuns(runs, RC5_T1) && Reading(b, rawlen, 1, runs)
    requires Cut(Levels(RC5_CODING, RC5_START, bits), Units(runs, RC5_T1))
    ensures Rc5Code(b, rawlen) == Some(Code(RC5, |bits|, Value(bits) % WORD, 0))
  {
    var p := Rc5StartRead(b, rawlen, runs, bits);
    Rc5BitsRead(b, rawlen, runs, bits, p, 0);
    assert bits[0..] == bits;
  }

  lemma {:induction false} Rc5FrameDecoded(b: Buffer, rawlen: nat, runs: seq<Pulse>, bits: seq<bool>)
    requires |runs| >= 12 && UnitRuns(runs, RC5_T1) && runs[0] == Pulse(MARK, RC5_T1) && Frame(b, rawlen, runs)
    requires Cut(Levels(RC5_CODING, RC5_START, bits), Units(runs, RC5_T1))
    ensures Decoded(b, rawlen) == Some(Code(RC5, |bits|, Value(bits) % WORD, 0))
  {
    FrameReading(b, rawlen, runs, [], runs);
    Rc5Accepted(b, rawlen, runs, bits);
    FrameAt(b, rawlen, runs, 0, 1);
    Rc5RejectedEarlier(b, rawlen);
  }

  lemma {:induction false} Rc5Decoded(b: Buffer, rawlen: nat, bits: seq<bool>)
    requires |bits| >= 10 && Frame(b, rawlen, Rc5Runs(bits))
    ensures Decoded(b, rawlen) == Some(Code(RC5, |bits|, Value(bits) % WORD, 0))
  {
    Rc5RunsCut(bits);
    BodyHead(RC5_CODING, RC5_HEAD, bits);
    Rc5FrameDecoded(b, rawlen, Rc5Runs(bits), bits);
  }

  // ----- RC6

  const RC6_START := [MARK, SPACE]

  const RC6_HEADER := [Pulse(MARK, RC6_HDR_MARK), Pulse(SPACE, RC6_HDR_SPACE)]

  const RC6_HEAD := [Pulse(MARK, RC6_T1), Pulse(SPACE, RC6_T1)]

  lemma {:induction false} Rc6HalfRead(b: Buffer, rawlen: nat, runs: seq<Pulse>, sent: seq<Level>, p: Place, i: nat, j: nat, level: Level)
    returns (q: Place)
    requires UnitRuns(runs, RC6_T1) && Reading(b, rawlen, 3, runs) && Cut(sent, Units(runs, RC6_T1))
    requires At(runs, RC6_T1, 3, p, j) && j + HalfUnits(RC6_CODING, i) <= |sent|
    requires Held(sent, j, j + HalfUnits(RC6_CODING, i), level)
    ensures Rc6Half(b, rawlen, p, i) == Some((level, q)) && At(runs, RC6_T1, 3, q, j + HalfUnits(RC6_CODING, i))
  {
    q := ReadSent(b, rawlen, 3, runs, RC6_T1, sent, p, j);
    if i == 3 {
      q := ReadSent(b, rawlen, 3, runs, RC6_T1, sent, q, j + 1);
    }
  }

  lemma {:induction false} Rc6BitsRead(b: Buffer, rawlen: nat, runs: seq<Pulse>, bits: seq<bool>, p: Place, i: nat)
    requires i <= |bits| && UnitRuns(runs, RC6_T1) && Reading(b, rawlen, 3, runs)
    requires Cut(Levels(RC6_CODING, RC6_START, bits), Units(runs, RC6_T1))
    requires At(runs, RC6_T1, 3, p, Position(RC6_CODING, 2, i))
    ensures Rc6Bits(b, rawlen, p, i) == Some(bits[i..])
    decreases |bits| - i
  {
    var sent, j := Levels(RC6_CODING, RC6_START, bits), Position(RC6_CODING, 2, i);
    if i < |bits| {
      var first, u := First(RC6_CODING, bits[i]), HalfUnits(RC6_CODING, i);
      BitLevels(RC6_CODING, RC6_START, bits, i);
      BitToCome(runs, RC6_T1, sent, 3, p, j, u, first);
      var r := Rc6BitRead(b, rawlen, runs, sent, p, i, j, first);
      Rc6BitsRead(b, rawlen, runs, bits, r, i + 1);
      ConsRest(bits, i);
    } else {
      MoreToCome(runs, RC6_T1, sent, 3, p, j);
      assert bits[i..] == [];
    }
  }

  /** One turn of the decoder's loop. */
  lemma {:induction false} Rc6BitRead(b: Buffer, rawlen: nat, runs: seq<Pulse>, sent: seq<Level>, p: Place, i: nat, j: nat, first: Level)
    returns (r: Place)
    requires UnitRuns(runs, RC6_T1) && Reading(b, rawlen, 3, runs) && Cut(sent, Units(runs, RC6_T1))
    requires At(runs, RC6_T1, 3, p, j) && j + 2 * HalfUnits(RC6_CODING, i) <= |sent| && p.offset < rawlen
    requires Held(sent, j, j + HalfUnits(RC6_CODING, i), first)
    requires Held(sent, j + HalfUnits(RC6_CODING, i), j + 2 * HalfUnits(RC6_CODING, i), Other(first))
    ensures Rc6Bits(b, rawlen, p, i) == Cons(first == MARK, Rc6Bits(b, rawlen, r, i + 1))
    ensures At(runs, RC6_T1, 3, r, j + 2 * HalfUnits(RC6_CODING, i))
  {
    var u := HalfUnits(RC6_CODING, i);
    var q := Rc6HalfRead(b, rawlen, runs, sent, p, i, j, first);
    r := Rc6HalfRead(b, rawlen, runs, sent, q, i, j + u, Other(first));
  }

  lemma {:induction false} Rc6StartRead(b: Buffer, rawlen: nat, runs: seq<Pulse>, bits: seq<bool>) returns (p: Place)
    requires runs != [] && UnitRuns(runs, RC6_T1) && Reading(b, rawlen, 3, runs)
    requires Cut(Levels(RC6_CODING, RC6_START, bits), Units(runs, RC6_T1))
    ensures Rc6Start(b, rawlen) == Some(p) && At(runs, RC6_T1, 3, p, 2)
  {
    var sent := Levels(RC6_CODING, RC6_START, bits);
    LevelsStart(RC6_CODING, RC6_START, bits);
    var start := RC6_START;
    assert sent[0] == start[0] && sent[1] == start[1];
    AtStart(runs, RC6_T1, 3);
    var p1 := ReadSent(b, rawlen, 3, runs, RC6_T1, sent, Place(3, 0), 0);
    p := ReadSent(b, rawlen, 3, runs, RC6_T1, sent, p1, 1);
  }

  function Rc6Runs(bits: seq<bool>): seq<Pulse> {
    RC6_HEADER + Recorded(Body(RC6_CODING, RC6_HEAD, bits))
  }

  lemma {:induction false} RecordedAfter(head: seq<Pulse>, runs: seq<Pulse>)
    requires runs != []
    ensures Recorded(head + runs) == head + Recorded(runs)
  {
    assert (head + runs)[..|head + runs| - 1] == head + runs[..|runs| - 1];
  }

  lemma {:induction false} Rc6WaveParts(bits: seq<bool>, row: seq<Pulse>)
    requires row == Row(bits, Rc6Bit)
    ensures Rc6Wave(bits) == RC6_HEADER + RC6_HEAD + row + [Pulse(SPACE, 0)]
    ensures Alternating(RC6_HEADER + RC6_HEAD) && RC6_HEAD != []
  {
  }

  lemma {:induction false} Rc6Shapes(bits: seq<bool>)
    ensures Shapes(RC6_CODING, bits, Rc6Bit)
  {
  }

  lemma {:induction false} Rc6Recorded(bits: seq<bool>)
    ensures Recorded(Line(Rc6Wave(bits))) == Rc6Runs(bits)
  {
    Rc6Shapes(bits);
    Rc6WaveParts(bits, Row(bits, Rc6Bit));
    LineOfFrame(RC6_CODING, RC6_HEADER, RC6_HEAD, bits, Rc6Bit, Rc6Wave(bits));
    RecordedAfter(RC6_HEADER, Body(RC6_CODING, RC6_HEAD, bits));
  }

  lemma {:induction false} Rc6HeadUnits()
    ensures WholeUnits(RC6_HEAD, RC6_T1) && Units(RC6_HEAD, RC6_T1) == RC6_START
  {
    var m, s := Pulse(MARK, RC6_T1), Pulse(SPACE, RC6_T1);
    UnitsSnoc([], m, RC6_T1);
    UnitsSnoc([m], s, RC6_T1);
    assert [] + [m] == [m] && [m] + [s] == RC6_HEAD;
    assert Units(RC6_HEAD, RC6_T1) == Repeat(MARK, 1) + Repeat(SPACE, 1);
  }

  lemma {:induction false} Rc6RunsCut(bits: seq<bool>)
    ensures var runs := Recorded(Body(RC6_CODING, RC6_HEAD, bits));
            && UnitRuns(runs, RC6_T1) && Cut(Levels(RC6_CODING, RC6_START, bits), Units(runs, RC6_T1))
            && |runs| % 2 == 1 && 1 + |bits| <= |runs| <= 2 + 2 * |bits|
  {
    Rc6HeadUnits();
    BodyUnitRuns(RC6_CODING, RC6_HEAD, bits);
    BodyLevels(RC6_CODING, RC6_HEAD, bits);
    RecordedOdd(Body(RC6_CODING, RC6_HEAD, bits), RC6_T1);
    RecordedIsCut(Body(RC6_CODING, RC6_HEAD, bits), RC6_T1);
  }

  /**
   * The header mark of RC6 is in the windows of Sony, Sanyo and three units of RC5 as well: what follows it is in
   * none of them.
   */
  lemma {:induction false} Rc6RejectedEarlier(b: Buffer, rawlen: nat)
    requires rawlen <= RAWBUF && b[0] >= SANYO_DOUBLE_SPACE_USECS
    requires MeasuresPulse(b[1], RC6_HEADER[0]) && MeasuresPulse(b[2], RC6_HEADER[1])
    ensures NecCode(b, rawlen) == SonyCode(b, rawlen) == SanyoCode(b, rawlen) == MitsubishiCode(b, rawlen) == None
    ensures Rc5Code(b, rawlen) == None
  {
  }

  lemma {:induction false} Rc6Accepted(b: Buffer, rawlen: nat, runs: seq<Pulse>, bits: seq<bool>)
    requires runs != [] && UnitRuns(runs, RC6_T1) && Reading(b, rawlen, 3, runs)
    requires Cut(Levels(RC6_CODING, RC6_START, bits), Units(runs, RC6_T1))
    requires MatchMark(b[1], RC6_HDR_MARK) && MatchSpace(b[2], RC6_HDR_SPACE)
    ensures Rc6Code(b, rawlen) == Some(Code(RC6, |bits|, Value(bits) % WORD, 0))
  {
    var p := Rc6StartRead(b, rawlen, runs, bits);
    Rc6BitsRead(b, rawlen, runs, bits, p, 0);
    assert bits[0..] == bits;
  }

  lemma {:induction false} Rc6Decoded(b: Buffer, rawlen: nat, bits: seq<bool>)
    requires Frame(b, rawlen, Rc6Runs(bits))
    ensures Decoded(b, rawlen) == Some(Code(RC6, |bits|, Value(bits) % WORD, 0))
  {
    var all, runs := Rc6Runs(bits), Recorded(Body(RC6_CODING, RC6_HEAD, bits));
    Rc6RunsCut(bits);
    FrameReading(b, rawlen, all, RC6_HEADER, runs);
    FrameAt(b, rawlen, all, 0, 1);
    FrameAt(b, rawlen, all, 1, 2);
    OwnWindow(b[1], RC6_HEADER[0]);
    OwnWindow(b[2], RC6_HEADER[1]);
    Rc6Accepted(b, rawlen, runs, bits);
    Rc6RejectedEarlier(b, rawlen);
  }
}
