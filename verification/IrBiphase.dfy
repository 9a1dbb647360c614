/** The bi-phase protocols: merged runs on the line, expanded again level by level. */
module IrBiphase {
  import opened IrSignal
  import opened IrProtocol
  import opened IrSend
  import opened IrDecode
  import opened IrPulseTrip
  import opened Options

  /** A bit is two halves of opposite level; a one starts with level one, and the bit at index wide is twice as wide. */
  datatype Coding = Coding(t: nat, one: Level, wide: int)

  const RC5_CODING := Coding(RC5_T1, SPACE, -1)
  const RC6_CODING := Coding(RC6_T1, MARK, 3)

  predicate IsCoding(c: Coding) {
    c == RC5_CODING || c == RC6_CODING
  }

  function Other(l: Level): Level {
    if l == MARK then SPACE else MARK
  }

  function First(c: Coding, b: bool): Level {
    if b then c.one else Other(c.one)
  }

  /** How many units each half of the bit at index i lasts. */
  function HalfUnits(c: Coding, i: int): (n: nat)
    ensures 1 <= n <= 2
  {
    if i >= 0 && i == c.wide then 2 else 1
  }

  function Halves(c: Coding, i: nat, b: bool): seq<Pulse> {
    var us := HalfUnits(c, i) * c.t;
    [Pulse(First(c, b), us), Pulse(Other(First(c, b)), us)]
  }

  // ----- The runs on the line

  function Body(c: Coding, start: seq<Pulse>, bits: seq<bool>): seq<Pulse> {
    if bits == [] then start
    else
      var halves := Halves(c, |bits| - 1, bits[|bits| - 1]);
      Extend(Extend(Body(c, start, bits[..|bits| - 1]), halves[0]), halves[1])
  }

  /** Alternating runs of one to three units. */
  predicate UnitRuns(runs: seq<Pulse>, t: nat)
    requires t > 0
  {
    Alternating(runs) && forall i :: 0 <= i < |runs| ==> UnitRun(runs[i], t)
  }

  predicate UnitRun(p: Pulse, t: nat)
    requires t > 0
  {
    p.us == t || p.us == 2 * t || p.us == 3 * t
  }

  /** A new half either lengthens the last run or starts one. */
  lemma {:induction false} ExtendUnitRuns(runs: seq<Pulse>, p: Pulse, t: nat)
    requires t > 0 && runs != [] && UnitRuns(runs, t) && (p.us == t || p.us == 2 * t)
    requires runs[|runs| - 1].us + p.us <= 3 * t
    ensures UnitRuns(Extend(runs, p), t)
    ensures |runs| <= |Extend(runs, p)| <= |runs| + 1
    ensures Extend(runs, p)[|Extend(runs, p)| - 1].level == p.level
  {
    var last := runs[|runs| - 1];
    if last.level != p.level {
      assert last.level == LevelAt(|runs| - 1);
      assert p.level == LevelAt(|runs|);
      AlternatingAppend(runs, p);
    }
  }

  /** The second half always starts a new run. */
  lemma {:induction false} SecondHalfUnitRuns(runs: seq<Pulse>, p: Pulse, t: nat)
    requires t > 0 && runs != [] && UnitRuns(runs, t) && (p.us == t || p.us == 2 * t)
    requires runs[|runs| - 1].level != p.level
    ensures Extend(runs, p) == runs + [p] && UnitRuns(runs + [p], t)
  {
    assert runs[|runs| - 1].level == LevelAt(|runs| - 1);
    assert p.level == LevelAt(|runs|);
    AlternatingAppend(runs, p);
  }

  /** However the bits run, no run is longer than three units, and every bit brings at least one run more. */
  lemma {:induction false} BodyUnitRuns(c: Coding, start: seq<Pulse>, bits: seq<bool>)
    requires IsCoding(c) && start != [] && UnitRuns(start, c.t) && start[|start| - 1].us == c.t
    ensures var runs := Body(c, start, bits);
            && UnitRuns(runs, c.t) && |start| + |bits| <= |runs| <= |start| + 2 * |bits|
            && runs[|runs| - 1].us == HalfUnits(c, |bits| - 1) * c.t
    decreases |bits|
  {
    if bits != [] {
      var n := |bits| - 1;
      BodyUnitRuns(c, start, bits[..n]);
      var runs, halves := Body(c, start, bits[..n]), Halves(c, n, bits[n]);
      ExtendUnitRuns(runs, halves[0], c.t);
      SecondHalfUnitRuns(Extend(runs, halves[0]), halves[1], c.t);
    }
  }

  lemma {:induction false} ExtendAfter(head: seq<Pulse>, runs: seq<Pulse>, p: Pulse)
    requires runs != []
    ensures Extend(head + runs, p) == head + Extend(runs, p) && Extend(runs, p) != []
  {
    assert (head + runs)[..|head + runs| - 1] == head + runs[..|runs| - 1];
  }

  lemma {:induction false} LineOfBit(head: seq<Pulse>, runs: seq<Pulse>, wave: seq<Pulse>, first: Pulse, second: Pulse)
    requires Line(wave) == head + runs && runs != []
    ensures var r := Extend(Extend(runs, first), second);
            Line(wave + [first] + [second]) == head + r && r != []
  {
    LineSnoc(wave, first);
    LineSnoc(wave + [first], second);
    ExtendAfter(head, runs, first);
    ExtendAfter(head, Extend(runs, first), second);
  }

  /** Shape gives the halves of each bit. */
  ghost predicate Shapes(c: Coding, bits: seq<bool>, shape: (nat, bool) -> seq<Pulse>) {
    forall i :: 0 <= i < |bits| ==> shape(i, bits[i]) == Halves(c, i, bits[i])
  }

  lemma {:induction false} RowSnoc(lead: seq<Pulse>, bits: seq<bool>, shape: (nat, bool) -> seq<Pulse>, first: Pulse, second: Pulse)
    requires bits != [] && shape(|bits| - 1, bits[|bits| - 1]) == [first, second]
    ensures lead + Row(bits, shape) == lead + Row(bits[..|bits| - 1], shape) + [first] + [second]
  {
  }

  lemma {:induction false} LineOfBody(c: Coding, head: seq<Pulse>, start: seq<Pulse>, bits: seq<bool>,
                                      shape: (nat, bool) -> seq<Pulse>)
    requires Line(head + start) == head + start && start != []
    requires Shapes(c, bits, shape)
    ensures Line(head + start + Row(bits, shape)) == head + Body(c, start, bits) && Body(c, start, bits) != []
    decreases |bits|
  {
    if bits == [] {
      assert head + start + Row(bits, shape) == head + start;
    } else {
      var n := |bits| - 1;
      var front, halves := bits[..n], Halves(c, n, bits[n]);
      LineOfBody(c, head, start, front, shape);
      RowSnoc(head + start, bits, shape, halves[0], halves[1]);
      LineOfBit(head, Body(c, start, front), head + start + Row(front, shape), halves[0], halves[1]);
    }
  }

  /** The runs of a frame: its head, the merged bits, and an empty space that changes nothing. */
  lemma {:induction false} LineOfFrame(c: Coding, head: seq<Pulse>, start: seq<Pulse>, bits: seq<bool>,
                                       shape: (nat, bool) -> seq<Pulse>, sent: seq<Pulse>)
    requires Alternating(head + start) && start != [] && Shapes(c, bits, shape)
    requires sent == head + start + Row(bits, shape) + [Pulse(SPACE, 0)]
    ensures Line(sent) == head + Body(c, start, bits) && Body(c, start, bits) != []
  {
    AlternatingLine(head + start);
    LineOfBody(c, head, start, bits, shape);
    LineSnoc(head + start + Row(bits, shape), Pulse(SPACE, 0));
  }

  // ----- The levels of the runs

  /** The position of the first level of the bit at index i, after s levels before the first bit. */
  function Position(c: Coding, s: nat, i: nat): nat {
    s + 2 * i + if 0 <= c.wide < i then 2 else 0
  }

  function HalfLevels(c: Coding, i: nat, b: bool): seq<Level> {
    Repeat(First(c, b), HalfUnits(c, i)) + Repeat(Other(First(c, b)), HalfUnits(c, i))
  }

  /** The line sampled once per unit: the halves of the bits, one after the other. */
  function Levels(c: Coding, start: seq<Level>, bits: seq<bool>): (r: seq<Level>)
    ensures |r| == Position(c, |start|, |bits|)
  {
    if bits == [] then start
    else Levels(c, start, bits[..|bits| - 1]) + HalfLevels(c, |bits| - 1, bits[|bits| - 1])
  }

  lemma {:induction false} FrontSlice(front: seq<Level>, end: seq<Level>, p: nat, q: nat)
    requires p <= q <= |front|
    ensures (front + end)[p..q] == front[p..q]
  {
  }

  lemma {:induction false} EndSlice(front: seq<Level>, end: seq<Level>)
    ensures (front + end)[|front|..|front| + |end|] == end
  {
  }

  lemma {:induction false} LevelsAt(c: Coding, start: seq<Level>, bits: seq<bool>, i: nat)
    requires i < |bits|
    ensures var all, p := Levels(c, start, bits), Position(c, |start|, i);
            p + 2 * HalfUnits(c, i) <= |all| && all[p..p + 2 * HalfUnits(c, i)] == HalfLevels(c, i, bits[i])
    decreases |bits|
  {
    var n := |bits| - 1;
    var front, end := Levels(c, start, bits[..n]), HalfLevels(c, n, bits[n]);
    var p, q := Position(c, |start|, i), Position(c, |start|, i) + 2 * HalfUnits(c, i);
    assert Levels(c, start, bits) == front + end;
    if i < n {
      LevelsAt(c, start, bits[..n], i);
      FrontSlice(front, end, p, q);
    } else {
      EndSlice(front, end);
    }
  }

  lemma {:induction false} UnitsOfPulse(k: nat, t: nat)
    requires t > 0
    ensures k * t % t == 0 && k * t / t == k
  {
    DivisionUnique(k * t, t, k);
  }

  /** Merging loses nothing: the merged runs, sampled once per unit, are the halves of the bits. */
  lemma {:induction false} BodyLevels(c: Coding, start: seq<Pulse>, bits: seq<bool>)
    requires IsCoding(c) && WholeUnits(start, c.t)
    ensures WholeUnits(Body(c, start, bits), c.t)
    ensures Units(Body(c, start, bits), c.t) == Levels(c, Units(start, c.t), bits)
    decreases |bits|
  {
    if bits != [] {
      var n := |bits| - 1;
      BodyLevels(c, start, bits[..n]);
      var runs, halves := Body(c, start, bits[..n]), Halves(c, n, bits[n]);
      UnitsOfPulse(HalfUnits(c, n), c.t);
      ExtendKeepsUnits(runs, halves[0], c.t);
      ExtendKeepsUnits(Extend(runs, halves[0]), halves[1], c.t);
      LevelsAssociate(Levels(c, Units(start, c.t), bits[..n]), Repeat(halves[0].level, HalfUnits(c, n)),
                      Repeat(halves[1].level, HalfUnits(c, n)));
    }
  }

  // ----- What the receiver cannot hear of them

  /** heard is levels without some final spaces, and ends in a mark. */
  ghost predicate Cut(levels: seq<Level>, heard: seq<Level>) {
    && heard <= levels && heard != [] && heard[|heard| - 1] == MARK
    && forall i :: |heard| <= i < |levels| ==> levels[i] == SPACE
  }

  lemma {:induction false} LastUnits(front: seq<Pulse>, p: Pulse, t: nat)
    requires t > 0 && p.us / t > 0
    ensures var all := Units(front + [p], t);
            && |all| == |Units(front, t)| + p.us / t && Units(front, t) <= all
            && all[|all| - 1] == p.level && forall i :: |Units(front, t)| <= i < |all| ==> all[i] == p.level
  {
    UnitsSnoc(front, p, t);
  }

  lemma {:induction false} MarkLast(front: seq<Pulse>, mark: Pulse, t: nat)
    requires t > 0 && mark.level == MARK && UnitRun(mark, t)
    ensures var all := Units(front + [mark], t); all != [] && all[|all| - 1] == MARK
  {
    UnitCount(mark, t);
    LastUnits(front, mark, t);
  }

  lemma {:induction false} SpaceLast(front: seq<Pulse>, space: Pulse, t: nat)
    requires t > 0 && space.level == SPACE && UnitRun(space, t)
    requires var heard := Units(front, t); heard != [] && heard[|heard| - 1] == MARK
    ensures Cut(Units(front + [space], t), Units(front, t))
  {
    UnitCount(space, t);
    LastUnits(front, space, t);
  }

  /** The recording ends with a mark, and so has an odd number of runs. */
  lemma {:induction false} RecordedOdd(runs: seq<Pulse>, t: nat)
    requires t > 0 && |runs| >= 2 && UnitRuns(runs, t)
    ensures |Recorded(runs)| % 2 == 1 && |runs| - 1 <= |Recorded(runs)| <= |runs|
    ensures UnitRuns(Recorded(runs), t)
  {
    var n := |runs| - 1;
    assert UnitRun(runs[n], t) && runs[n].level == LevelAt(n);
  }

  lemma {:induction false} CutAfterMark(front: seq<Pulse>, mark: Pulse, space: Pulse, t: nat)
    requires t > 0 && mark.level == MARK && space.level == SPACE && UnitRun(mark, t) && UnitRun(space, t)
    ensures Cut(Units(front + [mark] + [space], t), Units(front + [mark], t))
  {
    MarkLast(front, mark, t);
    SpaceLast(front + [mark], space, t);
  }

  lemma {:induction false} CutAtMark(front: seq<Pulse>, mark: Pulse, t: nat)
    requires t > 0 && mark.level == MARK && UnitRun(mark, t)
    ensures Cut(Units(front + [mark], t), Units(front + [mark], t))
  {
    MarkLast(front, mark, t);
  }

  /** The last mark, and the space after it if there is one. */
  lemma {:induction false} LastMark(runs: seq<Pulse>, t: nat) returns (front: seq<Pulse>, mark: Pulse, tail: seq<Pulse>)
    requires t > 0 && |runs| >= 2 && UnitRuns(runs, t)
    ensures Recorded(runs) == front + [mark] && mark.level == MARK && UnitRun(mark, t)
    ensures runs == front + [mark] + tail && |tail| <= 1
    ensures tail != [] ==> tail[0].level == SPACE && UnitRun(tail[0], t)
  {
    var n := |runs| - 1;
    assert runs[n].level == LevelAt(n) && runs[n - 1].level == LevelAt(n - 1);
    if LevelAt(n) == SPACE {
      front, mark, tail := runs[..n - 1], runs[n - 1], [runs[n]];
    } else {
      front, mark, tail := runs[..n], runs[n], [];
    }
  }

  lemma {:induction false} RecordedIsCut(runs: seq<Pulse>, t: nat)
    requires t > 0 && |runs| >= 2 && UnitRuns(runs, t)
    ensures Cut(Units(runs, t), Units(Recorded(runs), t))
  {
    var front, mark, tail := LastMark(runs, t);
    if tail == [] {
      CutAtMark(front, mark, t);
      assert runs == front + [mark];
    } else {
      CutAfterMark(front, mark, tail[0], t);
      assert runs == front + [mark] + [tail[0]];
    }
  }

  lemma {:induction false} UnitCount(p: Pulse, t: nat)
    requires t > 0 && UnitRun(p, t)
    ensures 1 <= p.us / t <= 3 && p.us == p.us / t * t
  {
    UnitsOfPulse(1, t);
    UnitsOfPulse(2, t);
    UnitsOfPulse(3, t);
  }

  // ----- The reader

  /** The buffer from place base on measures the runs, and the recording ends with them. */
  ghost predicate Reading(b: Buffer, rawlen: nat, base: nat, runs: seq<Pulse>) {
    && base % 2 == 1 && rawlen == base + |runs| <= RAWBUF
    && forall k: nat :: k < |runs| ==> ReadingRun(b, base, runs, k)
  }

  ghost predicate ReadingRun(b: Buffer, base: nat, runs: seq<Pulse>, k: nat)
    requires base + |runs| <= RAWBUF && k < |runs|
  {
    MeasuresPulse(b[base + k], runs[k])
  }

  /** The windows of one, two and three units tell the measured runs apart. */
  lemma {:induction false} UnitsAvailable(w: nat, p: Pulse, t: nat)
    requires (t == RC5_T1 || t == RC6_T1) && UnitRun(p, t) && MeasuresPulse(w, p)
    ensures Available(w, p.level, t) == p.us / t
  {
    UnitCount(p, t);
  }

  lemma {:induction false} UnitsPrefix(runs: seq<Pulse>, t: nat, k: nat)
    requires t > 0 && k <= |runs|
    ensures Units(runs[..k], t) <= Units(runs, t)
    decreases |runs| - k
  {
    if k < |runs| {
      UnitsPrefix(runs, t, k + 1);
      assert runs[..k + 1] == runs[..k] + [runs[k]];
      UnitsSnoc(runs[..k], runs[k], t);
    } else {
      assert runs[..k] == runs;
    }
  }

  /** The reader has read j levels: it is inside the run that holds level j, or at the end. */
  predicate At(runs: seq<Pulse>, t: nat, base: nat, p: Place, j: nat)
    requires t > 0
  {
    if j >= |Units(runs, t)| then p == Place(base + |runs|, 0)
    else
      && base <= p.offset < base + |runs|
      && p.used < runs[p.offset - base].us / t
      && j == |Units(runs[..p.offset - base], t)| + p.used
  }

  lemma {:induction false} LevelInRun(runs: seq<Pulse>, t: nat, k: nat, used: nat)
    requires t > 0 && k < |runs| && used < runs[k].us / t
    ensures var j := |Units(runs[..k], t)| + used;
            j < |Units(runs, t)| && Units(runs, t)[j] == runs[k].level
    ensures |Units(runs[..k + 1], t)| == |Units(runs[..k], t)| + runs[k].us / t <= |Units(runs, t)|
  {
    assert runs[..k + 1] == runs[..k] + [runs[k]];
    UnitsSnoc(runs[..k], runs[k], t);
    UnitsPrefix(runs, t, k + 1);
  }

  /** Where the reader is after the last unit of run k. */
  lemma {:induction false} RunFinished(runs: seq<Pulse>, t: nat, base: nat, k: nat)
    requires t > 0 && UnitRuns(runs, t) && k < |runs|
    ensures At(runs, t, base, Place(base + k + 1, 0), |Units(runs[..k + 1], t)|)
  {
    if k + 1 < |runs| {
      assert UnitRun(runs[k + 1], t);
      UnitCount(runs[k + 1], t);
      LevelInRun(runs, t, k + 1, 0);
    } else {
      assert runs[..k + 1] == runs;
    }
  }

  lemma {:induction false} AfterRead(runs: seq<Pulse>, t: nat, base: nat, p: Place, k: nat, q: Place)
    requires t > 0 && UnitRuns(runs, t) && p.offset == base + k && k < |runs| && p.used < runs[k].us / t
    requires q == if p.used + 1 >= runs[k].us / t then Place(base + k + 1, 0) else Place(base + k, p.used + 1)
    ensures At(runs, t, base, q, |Units(runs[..k], t)| + p.used + 1)
  {
    LevelInRun(runs, t, k, p.used);
    if q.used == 0 {
      RunFinished(runs, t, base, k);
    } else {
      LevelInRun(runs, t, k, q.used);
    }
  }

  /** Each read inside the recording gives the next level of the heard levels. */
  lemma {:induction false} ReadInRun(b: Buffer, rawlen: nat, base: nat, runs: seq<Pulse>, t: nat, p: Place, k: nat)
    returns (q: Place)
    requires (t == RC5_T1 || t == RC6_T1) && UnitRuns(runs, t) && Reading(b, rawlen, base, runs)
    requires p.offset == base + k && k < |runs| && p.used < runs[k].us / t
    ensures NextLevel(b, rawlen, p, t) == Some((runs[k].level, q))
    ensures q == if p.used + 1 >= runs[k].us / t then Place(base + k + 1, 0) else Place(base + k, p.used + 1)
  {
    assert ReadingRun(b, base, runs, k);
    assert UnitRun(runs[k], t) && runs[k].level == LevelAt(k) == EntryLevel(p.offset);
    UnitsAvailable(b[p.offset], runs[k], t);
    UnitCount(runs[k], t);
    q := NextLevel(b, rawlen, p, t).value.1;
  }

  /** Each read gives the next level of the heard levels, and space once they are used up. */
  lemma {:induction false} ReadLevel(b: Buffer, rawlen: nat, base: nat, runs: seq<Pulse>, t: nat, p: Place, j: nat)
    returns (q: Place)
    requires (t == RC5_T1 || t == RC6_T1) && UnitRuns(runs, t) && Reading(b, rawlen, base, runs)
    requires At(runs, t, base, p, j)
    ensures NextLevel(b, rawlen, p, t) == Some((if j < |Units(runs, t)| then Units(runs, t)[j] else SPACE, q))
    ensures At(runs, t, base, q, j + 1)
  {
    if j >= |Units(runs, t)| {
      q := p;
    } else {
      var k: nat := p.offset - base;
      LevelInRun(runs, t, k, p.used);
      q := ReadInRun(b, rawlen, base, runs, t, p, k);
      AfterRead(runs, t, base, p, k, q);
    }
  }

  /** The same with the levels as they were sent, final spaces included. */
  lemma {:induction false} ReadSent(b: Buffer, rawlen: nat, base: nat, runs: seq<Pulse>, t: nat, sent: seq<Level>, p: Place, j: nat)
    returns (q: Place)
    requires (t == RC5_T1 || t == RC6_T1) && UnitRuns(runs, t) && Reading(b, rawlen, base, runs)
    requires Cut(sent, Units(runs, t)) && At(runs, t, base, p, j) && j < |sent|
    ensures NextLevel(b, rawlen, p, t) == Some((sent[j], q)) && At(runs, t, base, q, j + 1)
  {
    q := ReadLevel(b, rawlen, base, runs, t, p, j);
  }

  /** The decoders' loop goes on exactly as long as a mark is to come. */
  lemma {:induction false} MoreToCome(runs: seq<Pulse>, t: nat, sent: seq<Level>, base: nat, p: Place, j: nat)
    requires t > 0 && Cut(sent, Units(runs, t)) && At(runs, t, base, p, j) && j <= |sent|
    ensures p.offset < base + |runs| <==> exists m :: j <= m < |sent| && sent[m] == MARK
  {
    var heard := Units(runs, t);
    if j < |heard| {
      assert sent[|heard| - 1] == MARK;
    }
  }
}
