/** The receiver's timer interrupt: one sample of the line per tick, run lengths into the raw buffer. */
module IrReceive {
  import opened Bits
  import opened IrSignal
  import opened IrProtocol

  datatype State = STATE_IDLE | STATE_MARK | STATE_SPACE | STATE_STOP

  /** A snapshot of the interrupt handler's parameters. */
  datatype Params = Params(rcvstate: State, timer: word, rawbuf: seq<word>, rawlen: nat)

  /** The buffer bound, and the parity that ties the kind of the next entry to the state. */
  predicate Sound(p: Params) {
    && |p.rawbuf| == RAWBUF && p.rawlen <= RAWBUF
    && (p.rcvstate == STATE_IDLE ==> p.rawlen == 0)
    && (p.rcvstate == STATE_MARK ==> p.rawlen % 2 == 1)
    && (p.rcvstate == STATE_SPACE ==> p.rawlen % 2 == 0 && p.rawlen >= 2)
  }

  /** Appends the width of the run that just ended and starts timing the next one. */
  function Push(p: Params, width: word, state: State): Params
    requires Sound(p) && p.rawlen < RAWBUF
  {
    Params(state, 0, p.rawbuf[p.rawlen := width], p.rawlen + 1)
  }

  function Step(p: Params, irdata: Level): (q: Params)
    requires Sound(p)
    ensures Sound(q)
  {
    var timer: word := (p.timer + 1) % 0x1_0000;
    var state := if p.rawlen >= RAWBUF then STATE_STOP else p.rcvstate;
    match state
    case STATE_IDLE =>
      if irdata == SPACE then p.(timer := timer)
      else if timer < GAP_TICKS then p.(timer := 0)
      else Push(p, timer, STATE_MARK)
    case STATE_MARK =>
      if irdata == SPACE then Push(p, timer, STATE_SPACE) else p.(timer := timer)
    case STATE_SPACE =>
      if irdata == MARK then Push(p, timer, STATE_MARK)
      else p.(timer := timer, rcvstate := if timer > GAP_TICKS then STATE_STOP else STATE_SPACE)
    case STATE_STOP =>
      p.(timer := if irdata == MARK then 0 else timer, rcvstate := STATE_STOP)
  }

  function Run(p: Params, samples: seq<Level>): (q: Params)
    requires Sound(p)
    ensures Sound(q)
  {
    if samples == [] then p
    else Step(Run(p, samples[..|samples| - 1]), samples[|samples| - 1])
  }

  lemma {:induction false} RunSnoc(p: Params, samples: seq<Level>, x: Level)
    requires Sound(p)
    ensures Run(p, samples + [x]) == Step(Run(p, samples), x)
  {
    assert (samples + [x])[..|samples|] == samples;
  }

  lemma {:induction false} RunConcat(p: Params, a: seq<Level>, b: seq<Level>)
    requires Sound(p)
    ensures Run(p, a + b) == Run(Run(p, a), b)
    decreases |b|
  {
    if b == [] {
      assert a + b == a;
    } else {
      var front, x := b[..|b| - 1], b[|b| - 1];
      assert a + b == a + front + [x];
      RunConcat(p, a, front);
      RunSnoc(p, a + front, x);
    }
  }

  // ----- The raw buffer is the run-length code of the line

  /** The samples of alternating runs of the given widths, starting with a mark. */
  function Expand(widths: seq<nat>): seq<Level> {
    if widths == [] then []
    else Expand(widths[..|widths| - 1]) + Repeat(LevelAt(|widths| - 1), widths[|widths| - 1])
  }

  lemma {:induction false} ExpandSnoc(widths: seq<nat>, w: nat)
    ensures Expand(widths + [w]) == Expand(widths) + Repeat(LevelAt(|widths|), w)
  {
    assert (widths + [w])[..|widths|] == widths;
  }

  predicate Recording(p: Params) {
    p.rcvstate == STATE_MARK || p.rcvstate == STATE_SPACE
  }

  /**
   * Since the first mark the receiver heard exactly the runs it recorded after the gap, and then the current run,
   * whose first sample set the timer to zero.
   */
  ghost predicate Codes(p: Params, heard: seq<Level>)
    requires Sound(p) && Recording(p)
  {
    heard == Expand(p.rawbuf[1..p.rawlen]) + Repeat(LevelAt(p.rawlen - 1), p.timer + 1)
  }

  /** The runs recorded are the beginning of what was heard. */
  ghost predicate Coded(p: Params, heard: seq<Level>)
    requires Sound(p)
  {
    1 <= p.rawlen && Expand(p.rawbuf[1..p.rawlen]) <= heard
  }

  lemma {:induction false} Appended(buf: seq<word>, from: nat, k: nat, w: word)
    requires from <= k < |buf|
    ensures buf[k := w][from..k + 1] == buf[from..k] + [w]
  {
  }

  lemma {:induction false} ExpandStep(widths: seq<nat>, w: nat, heard: seq<Level>)
    requires heard == Expand(widths) + Repeat(LevelAt(|widths|), w)
    ensures heard + [LevelAt(|widths| + 1)] == Expand(widths + [w]) + Repeat(LevelAt(|widths| + 1), 1)
  {
    ExpandSnoc(widths, w);
    assert Repeat(LevelAt(|widths| + 1), 1) == [LevelAt(|widths| + 1)];
  }

  lemma {:induction false} PushSound(p: Params, w: word, state: State)
    requires Sound(p) && Recording(p) && p.rawlen < RAWBUF
    requires state == (if p.rcvstate == STATE_MARK then STATE_SPACE else STATE_MARK)
    ensures Sound(Push(p, w, state)) && Push(p, w, state).rawbuf[1..p.rawlen + 1] == p.rawbuf[1..p.rawlen] + [w]
  {
    Appended(p.rawbuf, 1, p.rawlen, w);
  }

  lemma {:induction false} CodesOf(q: Params, widths: seq<nat>, heard: seq<Level>)
    requires Sound(q) && Recording(q) && q.rawbuf[1..q.rawlen] == widths
    requires heard == Expand(widths) + Repeat(LevelAt(|widths|), q.timer + 1)
    ensures Codes(q, heard)
  {
  }

  lemma {:induction false} PushCodes(p: Params, heard: seq<Level>, state: State, widths: seq<nat>, w: word, q: Params)
    requires Sound(p) && Recording(p) && p.rawlen < RAWBUF && widths == p.rawbuf[1..p.rawlen]
    requires heard == Expand(widths) + Repeat(LevelAt(|widths|), w)
    requires state == (if p.rcvstate == STATE_MARK then STATE_SPACE else STATE_MARK)
    requires q == Push(p, w, state)
    ensures Sound(q) && Recording(q) && Codes(q, heard + [LevelAt(p.rawlen)])
  {
    PushSound(p, w, state);
    ExpandStep(widths, w, heard);
    CodesOf(q, widths + [w], heard + [LevelAt(|widths| + 1)]);
  }

  lemma {:induction false} HoldCodes(p: Params, heard: seq<Level>)
    requires Sound(p) && Recording(p) && p.timer < 0xFFFF && Codes(p, heard)
    ensures Codes(p.(timer := p.timer + 1), heard + [LevelAt(p.rawlen - 1)])
  {
    var l := LevelAt(p.rawlen - 1);
    RepeatJoins(l, p.timer + 1, 1);
    assert Repeat(l, 1) == [l];
    LevelsAssociate(Expand(p.rawbuf[1..p.rawlen]), Repeat(l, p.timer + 1), [l]);
  }

  lemma {:induction false} StepHolds(p: Params, x: Level)
    requires Sound(p) && Recording(p) && p.rawlen < RAWBUF && x == LevelAt(p.rawlen - 1)
    requires p.timer < if x == MARK then 0xFFFF else GAP_TICKS
    ensures Step(p, x) == p.(timer := p.timer + 1)
  {
  }

  lemma {:induction false} StepRecords(p: Params, x: Level)
    requires Sound(p) && Recording(p) && p.rawlen < RAWBUF && x == LevelAt(p.rawlen) && p.timer < 0xFFFF
    ensures Step(p, x) == Push(p, p.timer + 1, if x == MARK then STATE_MARK else STATE_SPACE)
  {
  }

  lemma {:induction false} StepStops(p: Params, x: Level)
    requires Sound(p) && Recording(p)
    requires p.rawlen == RAWBUF || (p.rcvstate == STATE_SPACE && x == SPACE && GAP_TICKS <= p.timer < 0xFFFF)
    ensures var q := Step(p, x);
            q.rcvstate == STATE_STOP && q.rawbuf == p.rawbuf && q.rawlen == p.rawlen
  {
  }

  lemma {:induction false} StepCodes(p: Params, heard: seq<Level>, x: Level)
    requires Sound(p) && Recording(p) && Codes(p, heard) && p.timer < 0xFFFF
    ensures var q := Step(p, x);
            if Recording(q) then Codes(q, heard + [x]) else q.rcvstate == STATE_STOP && Coded(q, heard + [x])
  {
    if p.rawlen == RAWBUF || (p.rcvstate == STATE_SPACE && x == SPACE && GAP_TICKS <= p.timer) {
      StepStops(p, x);
    } else if x == LevelAt(p.rawlen) {
      StepRecords(p, x);
      PushCodes(p, heard, if x == MARK then STATE_MARK else STATE_SPACE, p.rawbuf[1..p.rawlen], p.timer + 1, Step(p, x));
    } else {
      StepHolds(p, x);
      HoldCodes(p, heard);
    }
  }

  /** The timer, which is 16 bits wide, does not overflow while a transmission is being recorded. */
  ghost predicate TimerKept(p: Params, samples: seq<Level>)
    requires Sound(p)
  {
    forall k: nat :: k < |samples| && Recording(Run(p, samples[..k])) ==> Run(p, samples[..k]).timer < 0xFFFF
  }

  lemma {:induction false} TimerKeptBefore(p: Params, samples: seq<Level>)
    requires Sound(p) && samples != [] && TimerKept(p, samples)
    ensures var front := samples[..|samples| - 1];
            TimerKept(p, front) && (Recording(Run(p, front)) ==> Run(p, front).timer < 0xFFFF)
  {
    var front := samples[..|samples| - 1];
    forall k: nat | k < |front| && Recording(Run(p, front[..k]))
      ensures Run(p, front[..k]).timer < 0xFFFF
    {
      assert front[..k] == samples[..k];
    }
  }

  /** What the code says of the samples heard: all while recording, and a beginning of them afterwards. */
  ghost predicate Exact(p: Params, samples: seq<Level>)
    requires Sound(p)
  {
    var q := Run(p, samples);
    if Recording(q) then Codes(q, [MARK] + samples) else q.rcvstate == STATE_STOP && Coded(q, [MARK] + samples)
  }

  /**
   * For every sequence of samples without a timer overflow: while a transmission is being recorded, expanding the
   * recorded widths and the timer gives back every sample since its first mark; once it has ended, the recorded
   * widths expand to a beginning of the samples.
   */
  lemma {:induction false} RunLengthCode(p: Params, samples: seq<Level>)
    requires Sound(p) && p.rcvstate == STATE_MARK && Codes(p, [MARK]) && TimerKept(p, samples)
    ensures Exact(p, samples)
    decreases |samples|
  {
    if samples != [] {
      var front, x := samples[..|samples| - 1], samples[|samples| - 1];
      TimerKeptBefore(p, samples);
      RunLengthCode(p, front);
      var q, heard := Run(p, front), [MARK] + front;
      assert [MARK] + samples == heard + [x];
      if Recording(q) {
        StepCodes(q, heard, x);
      }
    } else {
      assert [MARK] + samples == [MARK];
    }
  }

  /** A mark as long as the timer can count. */
  predicate LongMark(heard: seq<Level>, i: nat) {
    i + 0x1_0000 <= |heard| && forall k :: i <= k < i + 0x1_0000 ==> heard[k] == MARK
  }

  predicate MarksEnd(heard: seq<Level>) { forall i: nat :: i < |heard| ==> !LongMark(heard, i) }

  /** A space that is timed further ends the recording. */
  lemma {:induction false} SpacesShort(p: Params, samples: seq<Level>)
    requires Sound(p) && p.rcvstate == STATE_MARK
    ensures Run(p, samples).rcvstate != STATE_IDLE
    ensures Run(p, samples).rcvstate == STATE_SPACE ==> Run(p, samples).timer <= GAP_TICKS
    decreases |samples|
  {
    if samples != [] {
      SpacesShort(p, samples[..|samples| - 1]);
    }
  }

  lemma {:induction false} MarkHeard(q: Params, heard: seq<Level>)
    requires Sound(q) && q.rcvstate == STATE_MARK && Codes(q, heard)
    ensures q.timer == 0xFFFF ==> |heard| >= 0x1_0000 && LongMark(heard, |heard| - 0x1_0000)
  {
    var before, run := Expand(q.rawbuf[1..q.rawlen]), Repeat(MARK, q.timer + 1);
    assert heard == before + run;
  }

  lemma {:induction false} MarkRunning(q: Params, heard: seq<Level>)
    requires Sound(q) && q.rcvstate == STATE_MARK && Codes(q, heard) && MarksEnd(heard)
    ensures q.timer < 0xFFFF
  {
    MarkHeard(q, heard);
  }

  lemma {:induction false} MarksEndBefore(heard: seq<Level>, x: Level)
    requires MarksEnd(heard + [x])
    ensures MarksEnd(heard)
  {
    forall i: nat | i < |heard|
      ensures !LongMark(heard, i)
    {
      assert !LongMark(heard + [x], i);
    }
  }

  /** The timer does not overflow on any samples without so long a mark, however many they are. */
  lemma {:induction false} ShortMarksKeepTimer(p: Params, samples: seq<Level>)
    requires Sound(p) && p.rcvstate == STATE_MARK && Codes(p, [MARK]) && MarksEnd([MARK] + samples)
    ensures TimerKept(p, samples)
    decreases |samples|
  {
    if samples != [] {
      var front, x := samples[..|samples| - 1], samples[|samples| - 1];
      assert [MARK] + samples == [MARK] + front + [x];
      MarksEndBefore([MARK] + front, x);
      ShortMarksKeepTimer(p, front);
      RunLengthCode(p, front);
      SpacesShort(p, front);
      var q := Run(p, front);
      if q.rcvstate == STATE_MARK {
        MarkRunning(q, [MARK] + front);
      }
      forall k: nat | k < |samples| && Recording(Run(p, samples[..k]))
        ensures Run(p, samples[..k]).timer < 0xFFFF
      {
        if k < |front| {
          assert samples[..k] == front[..k];
        }
      }
    }
  }

  // ----- When the code is exact

  ghost predicate ExactThroughout(p: Params, samples: seq<Level>)
    requires Sound(p)
  {
    forall k: nat :: k <= |samples| ==> Exact(p, samples[..k])
  }

  lemma {:induction false} CodesLength(p: Params, heard: seq<Level>, widths: seq<nat>)
    requires Sound(p) && Recording(p) && Codes(p, heard) && widths == p.rawbuf[1..p.rawlen]
    ensures |heard| == |Expand(widths)| + p.timer + 1
  {
  }

  lemma {:induction false} NotCodes(q: Params, heard: seq<Level>, widths: seq<nat>)
    requires Sound(q) && Recording(q) && q.rawbuf[1..q.rawlen] == widths && |heard| != |Expand(widths)| + q.timer + 1
    ensures !Codes(q, heard)
  {
  }

  /** A mark that goes on after an overflow is timed from zero again. */
  lemma {:induction false} OverflowRestarts(p: Params, heard: seq<Level>, widths: seq<nat>)
    requires Sound(p) && p.rcvstate == STATE_MARK && Codes(p, heard) && p.timer == 0xFFFF && widths == p.rawbuf[1..p.rawlen]
    ensures var q := Step(p, MARK);
            q == p.(timer := 0) && !Codes(q, heard + [MARK])
  {
    CodesLength(p, heard, widths);
    NotCodes(Step(p, MARK), heard + [MARK], widths);
  }

  /** A mark that ends at an overflow is recorded with width zero. */
  lemma {:induction false} OverflowPushesZero(p: Params, heard: seq<Level>, widths: seq<nat>, q: Params)
    requires Sound(p) && p.rcvstate == STATE_MARK && Codes(p, heard) && p.timer == 0xFFFF && widths == p.rawbuf[1..p.rawlen]
    requires q == Step(p, SPACE)
    ensures q == Push(p, 0, STATE_SPACE) && !Codes(q, heard + [SPACE])
  {
    CodesLength(p, heard, widths);
    PushSound(p, 0, STATE_SPACE);
    ExpandSnoc(widths, 0);
    NotCodes(q, heard + [SPACE], widths + [0]);
  }

  lemma {:induction false} KeptSoFar(p: Params, samples: seq<Level>, k: nat)
    requires Sound(p) && k <= |samples|
    ensures TimerKept(p, samples) ==> TimerKept(p, samples[..k])
  {
    forall i: nat | i < k
      ensures samples[..k][..i] == samples[..i]
    {
    }
  }

  /** The sample after an overflow makes the code wrong. */
  lemma {:induction false} OverflowShows(p: Params, samples: seq<Level>, k: nat)
    requires Sound(p) && p.rcvstate == STATE_MARK && k < |samples| && Exact(p, samples[..k])
    requires Recording(Run(p, samples[..k])) && Run(p, samples[..k]).timer == 0xFFFF
    ensures !Exact(p, samples[..k + 1])
  {
    var front, x := samples[..k], samples[k];
    SpacesShort(p, front);
    assert samples[..k + 1] == front + [x] && [MARK] + (front + [x]) == [MARK] + front + [x];
    RunSnoc(p, front, x);
    var q := Run(p, front);
    OverflowRestarts(q, [MARK] + front, q.rawbuf[1..q.rawlen]);
    OverflowPushesZero(q, [MARK] + front, q.rawbuf[1..q.rawlen], Step(q, SPACE));
  }

  /** The code is exact all along if and only if the timer does not overflow while recording. */
  lemma {:induction false} ExactIfTimerKept(p: Params, samples: seq<Level>)
    requires Sound(p) && p.rcvstate == STATE_MARK && Codes(p, [MARK])
    ensures TimerKept(p, samples) <==> ExactThroughout(p, samples)
  {
    if TimerKept(p, samples) {
      forall k: nat | k <= |samples|
        ensures Exact(p, samples[..k])
      {
        KeptSoFar(p, samples, k);
        RunLengthCode(p, samples[..k]);
      }
    } else {
      var k: nat :| k < |samples| && Recording(Run(p, samples[..k])) && Run(p, samples[..k]).timer >= 0xFFFF;
      if Exact(p, samples[..k]) {
        OverflowShows(p, samples, k);
      }
    }
  }

  /** The samples since the current mark began are marks, and the one before them, if any, is a space. */
  predicate MarkBegan(q: Params, heard: seq<Level>) {
    && heard != []
    && (q.rcvstate == STATE_SPACE ==> heard[|heard| - 1] == SPACE)
    && (q.rcvstate == STATE_MARK ==>
          && q.timer < |heard| && (forall i :: |heard| - q.timer - 1 <= i < |heard| ==> heard[i] == MARK)
          && (q.timer + 1 < |heard| ==> heard[|heard| - q.timer - 2] == SPACE))
  }

  lemma {:induction false} MarkGoesOn(q: Params, heard: seq<Level>, x: Level)
    requires Sound(q) && Recording(q) && q.timer < 0xFFFF && MarkBegan(q, heard)
    ensures MarkBegan(Step(q, x), heard + [x])
  {
  }

  lemma {:induction false} MarkBeganIn(p: Params, samples: seq<Level>)
    requires Sound(p) && p.rcvstate == STATE_MARK && p.timer == 0 && TimerKept(p, samples)
    ensures MarkBegan(Run(p, samples), [MARK] + samples)
    decreases |samples|
  {
    if samples != [] {
      var front, x := samples[..|samples| - 1], samples[|samples| - 1];
      TimerKeptBefore(p, samples);
      MarkBeganIn(p, front);
      assert [MARK] + samples == [MARK] + front + [x];
      if Recording(Run(p, front)) {
        MarkGoesOn(Run(p, front), [MARK] + front, x);
      } else {
        SpacesShort(p, front);
        StopKeeps(Run(p, front), [x]);
      }
    }
  }

  /** While a transmission is recorded at some time, it was recorded at all times before. */
  lemma {:induction false} RecordedBefore(p: Params, samples: seq<Level>, j: nat)
    requires Sound(p) && p.rcvstate == STATE_MARK && j <= |samples| && Recording(Run(p, samples))
    ensures Recording(Run(p, samples[..j]))
  {
    assert samples == samples[..j] + samples[j..];
    RunConcat(p, samples[..j], samples[j..]);
    SpacesShort(p, samples[..j]);
    if !Recording(Run(p, samples[..j])) {
      StopKeeps(Run(p, samples[..j]), samples[j..]);
    }
  }

  /** A mark of 0x1_0000 samples leaves the timer where it overflows next. */
  lemma {:induction false} LongMarkFills(q: Params, heard: seq<Level>)
    requires Sound(q) && Recording(q) && MarkBegan(q, heard) && |heard| >= 0x1_0000 && LongMark(heard, |heard| - 0x1_0000)
    ensures q.rcvstate == STATE_MARK && q.timer == 0xFFFF
  {
    assert heard[|heard| - 1] == MARK;
  }

  lemma {:induction false} LongMarkOverflows(p: Params, samples: seq<Level>, i: nat)
    requires Sound(p) && p.rcvstate == STATE_MARK && p.timer == 0 && Recording(Run(p, samples))
    requires LongMark([MARK] + samples, i) && TimerKept(p, samples[..i + 0xFFFF])
    ensures Recording(Run(p, samples[..i + 0xFFFF])) && Run(p, samples[..i + 0xFFFF]).timer == 0xFFFF
  {
    var front := samples[..i + 0xFFFF];
    var heard := [MARK] + front;
    RecordedBefore(p, samples, i + 0xFFFF);
    MarkBeganIn(p, front);
    forall l | i <= l < i + 0x1_0000
      ensures heard[l] == MARK
    {
      assert heard[l] == ([MARK] + samples)[l];
    }
    LongMarkFills(Run(p, front), heard);
  }

  lemma {:induction false} LongMarkNotKept(p: Params, samples: seq<Level>, k: nat, i: nat)
    requires Sound(p) && p.rcvstate == STATE_MARK && p.timer == 0 && k < |samples|
    requires Recording(Run(p, samples[..k])) && LongMark([MARK] + samples[..k], i)
    ensures !TimerKept(p, samples)
  {
    var front, j := samples[..k], i + 0xFFFF;
    assert |[MARK] + front| == k + 1;
    assert front[..j] == samples[..j];
    KeptSoFar(p, samples, j);
    if TimerKept(p, samples[..j]) {
      LongMarkOverflows(p, front, i);
    }
  }

  /** No mark is as long as 0x1_0000 samples, as long as the receiver records and listens. */
  ghost predicate MarksShort(p: Params, samples: seq<Level>)
    requires Sound(p)
  {
    forall k: nat :: k < |samples| && Recording(Run(p, samples[..k])) ==> MarksEnd([MARK] + samples[..k])
  }

  /** From the first mark on, the timer is kept if and only if no mark is so long. */
  lemma {:induction false} TimerKeptIfMarksShort(p: Params, samples: seq<Level>)
    requires Sound(p) && p.rcvstate == STATE_MARK && Codes(p, [MARK])
    ensures TimerKept(p, samples) <==> MarksShort(p, samples)
  {
    CodesLength(p, [MARK], p.rawbuf[1..p.rawlen]);
    if !MarksShort(p, samples) {
      var k: nat :| k < |samples| && Recording(Run(p, samples[..k])) && !MarksEnd([MARK] + samples[..k]);
      var i: nat :| LongMark([MARK] + samples[..k], i);
      LongMarkNotKept(p, samples, k, i);
    }
    if MarksShort(p, samples) {
      forall k: nat | k < |samples| && Recording(Run(p, samples[..k]))
        ensures Run(p, samples[..k]).timer < 0xFFFF
      {
        ShortMarksKeepTimer(p, samples[..k]);
        RunLengthCode(p, samples[..k]);
        SpacesShort(p, samples[..k]);
        if Run(p, samples[..k]).rcvstate == STATE_MARK {
          MarkRunning(Run(p, samples[..k]), [MARK] + samples[..k]);
        }
      }
    }
  }

  /** A mark of 0x1_0000 samples gets there: whatever comes after it, the code is wrong. */
  lemma {:induction false} OverflowReached(p: Params, x: Level)
    requires Sound(p) && p.rcvstate == STATE_MARK && Codes(p, [MARK])
    ensures Run(p, Repeat(MARK, 0xFFFF)) == p.(timer := 0xFFFF)
    ensures !ExactThroughout(p, Repeat(MARK, 0xFFFF) + [x])
  {
    var long := Repeat(MARK, 0xFFFF);
    CodesLength(p, [MARK], p.rawbuf[1..p.rawlen]);
    HoldLevel(p, MARK, 0xFFFF);
    assert (long + [x])[..0xFFFF] == long;
    assert !TimerKept(p, long + [x]);
    ExactIfTimerKept(p, long + [x]);
  }

  /** The first mark after a long enough gap starts such a recording. */
  lemma {:induction false} GapEnds(p: Params)
    requires Sound(p) && p.rcvstate == STATE_IDLE && GAP_TICKS - 1 <= p.timer < 0xFFFF
    ensures var q := Step(p, MARK);
            q.rcvstate == STATE_MARK && q.rawlen == 1 && q.rawbuf[0] == p.timer + 1 && Codes(q, [MARK])
  {
    assert Repeat(MARK, 1) == [MARK];
  }

  /** What has been recorded stays until the receiver is resumed. */
  lemma {:induction false} StopKeeps(p: Params, samples: seq<Level>)
    requires Sound(p) && p.rcvstate == STATE_STOP
    ensures var q := Run(p, samples);
            q.rcvstate == STATE_STOP && q.rawbuf == p.rawbuf && q.rawlen == p.rawlen
    decreases |samples|
  {
    if samples != [] {
      StopKeeps(p, samples[..|samples| - 1]);
    }
  }

  // ----- A whole frame

  lemma {:induction false} IdleSpaces(p: Params, n: nat)
    requires Sound(p) && p.rcvstate == STATE_IDLE && p.timer + n < 0x1_0000
    ensures Run(p, Repeat(SPACE, n)) == p.(timer := p.timer + n)
    decreases n
  {
    if n > 0 {
      IdleSpaces(p, n - 1);
      assert Repeat(SPACE, n)[..n - 1] == Repeat(SPACE, n - 1);
    }
  }

  lemma {:induction false} HoldLevel(p: Params, level: Level, n: nat)
    requires Sound(p) && Recording(p) && p.rawlen < RAWBUF && level == LevelAt(p.rawlen - 1)
    requires p.timer + n <= if level == MARK then 0xFFFF else GAP_TICKS
    ensures Run(p, Repeat(level, n)) == p.(timer := p.timer + n)
    decreases n
  {
    if n > 0 {
      HoldLevel(p, level, n - 1);
      assert Repeat(level, n)[..n - 1] == Repeat(level, n - 1);
      StepHolds(p.(timer := p.timer + (n - 1)), level);
    }
  }

  lemma {:induction false} SilenceStops(p: Params, n: nat)
    requires Sound(p) && p.rcvstate == STATE_SPACE && p.timer <= GAP_TICKS < p.timer + n
    ensures var q := Run(p, Repeat(SPACE, n));
            q.rcvstate == STATE_STOP && q.rawbuf == p.rawbuf && q.rawlen == p.rawlen
    decreases n
  {
    assert Repeat(SPACE, n)[..n - 1] == Repeat(SPACE, n - 1);
    if p.timer + (n - 1) > GAP_TICKS {
      SilenceStops(p, n - 1);
    } else if p.rawlen < RAWBUF {
      HoldLevel(p, SPACE, n - 1);
    } else {
      FullStops(p, n - 1);
    }
  }

  lemma {:induction false} FullStops(p: Params, n: nat)
    requires Sound(p) && p.rcvstate == STATE_SPACE && p.rawlen == RAWBUF
    ensures var q := Run(p, Repeat(SPACE, n));
            q.rawbuf == p.rawbuf && q.rawlen == p.rawlen && (n > 0 ==> q.rcvstate == STATE_STOP)
    decreases n
  {
    if n > 0 {
      FullStops(p, n - 1);
      assert Repeat(SPACE, n)[..n - 1] == Repeat(SPACE, n - 1);
    }
  }

  /** Widths a receiver can record: an odd number of runs that fit the buffer, no space as long as a gap. */
  predicate Recordable(widths: seq<nat>) {
    && |widths| % 2 == 1 && |widths| < RAWBUF
    && forall i :: 0 <= i < |widths| ==> 1 <= widths[i] <= if i % 2 == 0 then 0xFFFF else GAP_TICKS
  }

  /** The receiver has just heard the first sample of run i of a frame. */
  predicate InRun(p: Params, gap: nat, widths: seq<nat>, i: nat) {
    && i <= |widths| && Sound(p) && p.timer == 0 && p.rawlen == 1 + i
    && p.rcvstate == (if i % 2 == 0 then STATE_MARK else STATE_SPACE)
    && p.rawbuf[..1 + i] == [gap] + widths[..i]
  }

  /** What is heard in run i after its first sample, up to the first sample of the next one. */
  function Within(widths: seq<nat>, i: nat): seq<Level>
    requires i < |widths| && widths[i] > 0
  {
    Repeat(LevelAt(i), widths[i] - 1) + [LevelAt(i + 1)]
  }

  predicate Positive(widths: seq<nat>) { forall i :: 0 <= i < |widths| ==> widths[i] > 0 }

  /** What is heard of a frame after its first sample, up to the first sample of run i. */
  function Until(widths: seq<nat>, i: nat): (heard: seq<Level>)
    requires Positive(widths) && i <= |widths|
  {
    if i == 0 then [] else Until(widths, i - 1) + Within(widths, i - 1)
  }

  lemma {:induction false} RunSamples(front: seq<Level>, level: Level, w: nat, next: Level)
    requires w > 0
    ensures front + Repeat(level, w) + [next] == front + [level] + (Repeat(level, w - 1) + [next])
  {
    RepeatJoins(level, 1, w - 1);
    assert Repeat(level, 1) == [level];
  }

  lemma {:induction false} UntilExpands(widths: seq<nat>, i: nat)
    requires Positive(widths) && i <= |widths|
    ensures [MARK] + Until(widths, i) == Expand(widths[..i]) + [LevelAt(i)]
    decreases i
  {
    if i > 0 {
      var front, w := widths[..i - 1], widths[i - 1];
      UntilExpands(widths, i - 1);
      assert widths[..i] == front + [w];
      ExpandSnoc(front, w);
      RunSamples(Expand(front), LevelAt(i - 1), w, LevelAt(i));
      LevelsAssociate([MARK], Until(widths, i - 1), Within(widths, i - 1));
    }
  }

  lemma {:induction false} NextRun(p: Params, gap: nat, widths: seq<nat>, i: nat)
    requires Recordable(widths) && i < |widths| && InRun(p, gap, widths, i)
    ensures InRun(Run(p, Within(widths, i)), gap, widths, i + 1)
  {
    var held, w := Repeat(LevelAt(i), widths[i] - 1), widths[i];
    HoldLevel(p, LevelAt(i), w - 1);
    RunSnoc(p, held, LevelAt(i + 1));
    StepRecords(p.(timer := w - 1), LevelAt(i + 1));
    Appended(p.rawbuf, 0, 1 + i, w);
    assert [gap] + widths[..i + 1] == [gap] + widths[..i] + [w];
  }

  lemma {:induction false} ThroughRuns(p: Params, gap: nat, widths: seq<nat>, i: nat) returns (q: Params)
    requires Recordable(widths) && i <= |widths| && InRun(p, gap, widths, 0)
    ensures q == Run(p, Until(widths, i)) && InRun(q, gap, widths, i)
    decreases i
  {
    if i == 0 {
      q := p;
    } else {
      var r := ThroughRuns(p, gap, widths, i - 1);
      RunConcat(p, Until(widths, i - 1), Within(widths, i - 1));
      NextRun(r, gap, widths, i - 1);
      q := Run(r, Within(widths, i - 1));
    }
  }

  lemma {:induction false} FrameUntil(widths: seq<nat>, frame: seq<Level>)
    requires Positive(widths) && |widths| % 2 == 1 && frame == Expand(widths) + [SPACE]
    ensures frame == [MARK] + frame[1..] && frame[1..] == Until(widths, |widths|)
  {
    UntilExpands(widths, |widths|);
    assert widths[..|widths|] == widths;
    assert frame == [MARK] + Until(widths, |widths|);
  }

  lemma {:induction false} FrameHeard(p: Params, lead: nat, widths: seq<nat>) returns (q: Params)
    requires Sound(p) && p.rcvstate == STATE_IDLE && GAP_TICKS <= p.timer + lead + 1 < 0x1_0000
    requires Recordable(widths)
    ensures var frame := Expand(widths) + [SPACE];
            && frame == [MARK] + frame[1..] && q == Run(p, Repeat(SPACE, lead) + [MARK] + frame[1..])
            && InRun(q, p.timer + lead + 1, widths, |widths|)
            && q.rawbuf[..q.rawlen] == [p.timer + lead + 1] + widths
  {
    var lull, frame := Repeat(SPACE, lead), Expand(widths) + [SPACE];
    var p1 := p.(timer := p.timer + lead);
    IdleSpaces(p, lead);
    GapEnds(p1);
    RunSnoc(p, lull, MARK);
    FrameUntil(widths, frame);
    assert widths[..|widths|] == widths;
    q := ThroughRuns(Step(p1, MARK), p.timer + lead + 1, widths, |widths|);
    RunConcat(p, lull + [MARK], frame[1..]);
  }

  lemma {:induction false} FrameSamples(lull: seq<Level>, runs: seq<Level>, tail: nat)
    requires tail > 0 && runs + [SPACE] == [MARK] + (runs + [SPACE])[1..]
    ensures lull + runs + Repeat(SPACE, tail) == lull + [MARK] + (runs + [SPACE])[1..] + Repeat(SPACE, tail - 1)
  {
    RepeatJoins(SPACE, 1, tail - 1);
    assert Repeat(SPACE, 1) == [SPACE];
    var rest := Repeat(SPACE, tail - 1);
    assert lull + runs + ([SPACE] + rest) == lull + (runs + [SPACE]) + rest;
    assert lull + [MARK] + (runs + [SPACE])[1..] == lull + ([MARK] + (runs + [SPACE])[1..]);
  }

  lemma {:induction false} SilenceAfter(p: Params, before: seq<Level>, q: Params, samples: seq<Level>, n: nat)
    requires Sound(p) && q == Run(p, before) && q.rcvstate == STATE_SPACE && q.timer <= GAP_TICKS < q.timer + n
    requires samples == before + Repeat(SPACE, n)
    ensures var r := Run(p, samples);
            r.rcvstate == STATE_STOP && r.rawbuf == q.rawbuf && r.rawlen == q.rawlen
  {
    RunConcat(p, before, Repeat(SPACE, n));
    SilenceStops(q, n);
  }

  /** The samples of a frame between two silences; its last space, if any, is part of the second one. */
  ghost predicate FrameSampled(samples: seq<Level>, lead: nat, widths: seq<nat>, tail: nat) {
    samples == Repeat(SPACE, lead) + Expand(widths) + Repeat(SPACE, tail)
  }

  /** A frame between two silences ends in STOP with the gap and the width of each run in the buffer. */
  lemma {:induction false} FrameRecorded(p: Params, lead: nat, widths: seq<nat>, tail: nat, samples: seq<Level>)
    requires Sound(p) && p.rcvstate == STATE_IDLE && GAP_TICKS <= p.timer + lead + 1 < 0x1_0000
    requires Recordable(widths) && tail >= GAP_TICKS + 2 && FrameSampled(samples, lead, widths, tail)
    ensures var q := Run(p, samples);
            && q.rcvstate == STATE_STOP && q.rawlen == 1 + |widths|
            && q.rawbuf[..q.rawlen] == [p.timer + lead + 1] + widths
  {
    var q := FrameHeard(p, lead, widths);
    FrameSamples(Repeat(SPACE, lead), Expand(widths), tail);
    SilenceAfter(p, Repeat(SPACE, lead) + [MARK] + (Expand(widths) + [SPACE])[1..], q, samples, tail - 1);
  }

  // ----- The interrupt handler

  class IRparams {
    var rcvstate: State
    var timer: word
    var rawbuf: array<word>
    var rawlen: nat

    ghost predicate Valid()
      reads this, rawbuf
    {
      rawbuf.Length == RAWBUF && Sound(View())
    }

    ghost function View(): Params
      reads this, rawbuf
    {
      Params(rcvstate, timer, rawbuf[..], rawlen)
    }

    constructor ()
      ensures Valid() && fresh(rawbuf) && rcvstate == STATE_IDLE && rawlen == 0 && timer == 0
    {
      rcvstate, timer, rawlen := STATE_IDLE, 0, 0;
      rawbuf := new word[RAWBUF](_ => 0);
    }

    method Resume()
      requires Valid()
      modifies this`rcvstate, this`rawlen
      ensures Valid() && View() == old(View()).(rcvstate := STATE_IDLE, rawlen := 0)
    {
      rcvstate := STATE_IDLE;
      rawlen := 0;
    }

    method Record(width: word)
      requires Valid() && rawlen < RAWBUF
      modifies this`rawlen, this`timer, rawbuf
      ensures rawbuf[..] == old(rawbuf[..])[old(rawlen) := width] && rawlen == old(rawlen) + 1 && timer == 0
    {
      rawbuf[rawlen] := width;
      rawlen := rawlen + 1;
      timer := 0;
    }

    method Tick(irdata: Level)
      requires Valid()
      modifies this`rcvstate, this`timer, this`rawlen, rawbuf
      ensures Valid() && View() == Step(old(View()), irdata)
    {
      timer := (timer + 1) % 0x1_0000;
      if rawlen >= RAWBUF {
        rcvstate := STATE_STOP;
      }
      match rcvstate
      case STATE_IDLE =>
        if irdata == MARK {
          if timer < GAP_TICKS {
            timer := 0;
          } else {
            rawlen := 0;
            Record(timer);
            rcvstate := STATE_MARK;
          }
        }
      case STATE_MARK =>
        if irdata == SPACE {
          Record(timer);
          rcvstate := STATE_SPACE;
        }
      case STATE_SPACE =>
        if irdata == MARK {
          Record(timer);
          rcvstate := STATE_MARK;
        } else if timer > GAP_TICKS {
          rcvstate := STATE_STOP;
        }
      case STATE_STOP =>
        if irdata == MARK {
          timer := 0;
        }
    }
  }
}
