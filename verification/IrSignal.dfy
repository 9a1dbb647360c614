/** Infrared signals as levels over time, and how the receiver's timer measures them. */
module IrSignal {

  datatype Level = MARK | SPACE

  /** The line held at one level for a number of microseconds. */
  datatype Pulse = Pulse(level: Level, us: nat)

  const USECPERTICK := 50

  /** Marks arrive this much too long, and spaces this much too short. */
  const MARK_EXCESS := 100

  // ----- The level sequence on the line

  function Extend(runs: seq<Pulse>, p: Pulse): seq<Pulse> {
    if p.us == 0 then runs
    else if runs != [] && runs[|runs| - 1].level == p.level then
      runs[..|runs| - 1] + [Pulse(p.level, runs[|runs| - 1].us + p.us)]
    else runs + [p]
  }

  /** Maximal runs of equal level: what a receiver can see of the pulses sent. */
  function Line(wave: seq<Pulse>): seq<Pulse> {
    if wave == [] then [] else Extend(Line(wave[..|wave| - 1]), wave[|wave| - 1])
  }

  /** A final space cannot be told from the silence after it, so it is never recorded. */
  function Recorded(runs: seq<Pulse>): seq<Pulse> {
    if runs != [] && runs[|runs| - 1].level == SPACE then runs[..|runs| - 1] else runs
  }

  function LevelAt(i: nat): Level {
    if i % 2 == 0 then MARK else SPACE
  }

  /** Nonempty pulses that alternate between levels, starting with a mark. */
  predicate Alternating(runs: seq<Pulse>) {
    forall i :: 0 <= i < |runs| ==> runs[i].us > 0 && runs[i].level == LevelAt(i)
  }

  lemma {:induction false} LineSnoc(wave: seq<Pulse>, p: Pulse)
    ensures Line(wave + [p]) == Extend(Line(wave), p)
  {
    assert (wave + [p])[..|wave|] == wave;
  }

  lemma {:induction false} ExtendAlternating(runs: seq<Pulse>, p: Pulse)
    requires p.us > 0 && p.level == LevelAt(|runs|)
    requires runs == [] || runs[|runs| - 1].level == LevelAt(|runs| - 1)
    ensures Extend(runs, p) == runs + [p]
  {
  }

  /** Alternating pulses that go on a line of complete runs are runs themselves. */
  lemma {:induction false} LineOfAlternating(head: seq<Pulse>, wave: seq<Pulse>)
    requires Line(head) == head && Alternating(head + wave)
    ensures Line(head + wave) == head + wave
    decreases |wave|
  {
    if wave == [] {
      assert head + wave == head;
    } else {
      var front, p := head + wave[..|wave| - 1], wave[|wave| - 1];
      assert head + wave == front + [p];
      assert (head + wave)[|front|] == p;
      assert front != [] ==> (head + wave)[|front| - 1] == front[|front| - 1];
      assert forall i :: 0 <= i < |front| ==> front[i] == (head + wave)[i];
      LineOfAlternating(head, wave[..|wave| - 1]);
      LineSnoc(front, p);
      ExtendAlternating(front, p);
    }
  }

  // ----- Measurement

  /** A width of w ticks measures us microseconds to within one tick. */
  predicate WithinOneTick(w: nat, us: int) {
    -USECPERTICK <= USECPERTICK * w - us <= USECPERTICK
  }

  function Received(p: Pulse): int {
    if p.level == MARK then p.us + MARK_EXCESS else p.us - MARK_EXCESS
  }

  predicate MeasuresPulse(w: nat, p: Pulse) {
    WithinOneTick(w, Received(p))
  }

  /** The widths that follow the gap in the raw buffer measure the recorded runs. */
  predicate Measures(widths: seq<nat>, runs: seq<Pulse>) {
    |widths| == |runs| && forall i :: 0 <= i < |runs| ==> MeasuresPulse(widths[i], runs[i])
  }

  // ----- Signals in units of a bit time

  function Repeat(level: Level, n: nat): (r: seq<Level>)
    ensures |r| == n
  {
    seq(n, _ => level)
  }

  /** The line sampled once per unit of t microseconds. */
  function Units(wave: seq<Pulse>, t: nat): seq<Level>
    requires t > 0
  {
    if wave == [] then []
    else Units(wave[..|wave| - 1], t) + Repeat(wave[|wave| - 1].level, wave[|wave| - 1].us / t)
  }

  predicate WholeUnits(wave: seq<Pulse>, t: nat)
    requires t > 0
  {
    forall i :: 0 <= i < |wave| ==> wave[i].us % t == 0
  }

  lemma {:induction false} UnitsSnoc(wave: seq<Pulse>, p: Pulse, t: nat)
    requires t > 0
    ensures Units(wave + [p], t) == Units(wave, t) + Repeat(p.level, p.us / t)
  {
    assert (wave + [p])[..|wave|] == wave;
  }

  lemma {:induction false} DivisionUnique(m: int, t: int, n: int)
    requires t > 0 && m == t * n
    ensures m % t == 0 && m / t == n
  {
    var d := m / t - n;
    assert m == t * (m / t) + m % t;
    assert t * d == t * (m / t) - t * n;
    assert d >= 1 ==> t * d >= t;
    assert d <= -1 ==> t * d <= -t;
  }

  lemma {:induction false} AddUnits(a: nat, b: nat, t: nat)
    requires t > 0 && a % t == 0 && b % t == 0
    ensures (a + b) % t == 0 && (a + b) / t == a / t + b / t
  {
    var i, j := a / t, b / t;
    assert a == t * i && b == t * j;
    assert a + b == t * (i + j);
    DivisionUnique(a + b, t, i + j);
  }

  lemma {:induction false} RepeatJoins(level: Level, m: nat, n: nat)
    ensures Repeat(level, m + n) == Repeat(level, m) + Repeat(level, n)
  {
  }

  lemma {:induction false} MergeKeepsUnits(front: seq<Pulse>, last: Pulse, p: Pulse, t: nat)
    requires t > 0 && last.us % t == 0 && p.us % t == 0 && last.level == p.level
    ensures (last.us + p.us) % t == 0
    ensures Units(front + [Pulse(p.level, last.us + p.us)], t) == Units(front + [last], t) + Repeat(p.level, p.us / t)
  {
    var m, n := last.us / t, p.us / t;
    AddUnits(last.us, p.us, t);
    UnitsSnoc(front, last, t);
    UnitsSnoc(front, Pulse(p.level, last.us + p.us), t);
    RepeatJoins(p.level, m, n);
    LevelsAssociate(Units(front, t), Repeat(p.level, m), Repeat(p.level, n));
  }

  lemma {:induction false} LevelsAssociate(a: seq<Level>, b: seq<Level>, c: seq<Level>)
    ensures a + (b + c) == a + b + c
  {
  }

  lemma {:induction false} ExtendKeepsUnits(runs: seq<Pulse>, p: Pulse, t: nat)
    requires t > 0 && WholeUnits(runs, t) && p.us % t == 0
    ensures WholeUnits(Extend(runs, p), t)
    ensures Units(Extend(runs, p), t) == Units(runs, t) + Repeat(p.level, p.us / t)
  {
    if p.us == 0 {
      DivisionUnique(0, t, 0);
    } else if runs != [] && runs[|runs| - 1].level == p.level {
      var front, last := runs[..|runs| - 1], runs[|runs| - 1];
      assert runs == front + [last];
      MergeKeepsUnits(front, last, p, t);
    } else {
      UnitsSnoc(runs, p, t);
    }
  }
}
