/** What receivers make of a frame's header, in all three forms of its length. */
module WsHeader {
  import opened Bits
  import opened WsFrame
  import opened WsReceive

  /** Between frames. */
  predicate Idle(s: State) { s.phase == New && s.buffer == [] && !s.view.killed }

  /** Clients mask and servers do not. */
  predicate Acceptable(role: Role, f: Frame) { ValidFrame(f) && (role == Client ==> f.mask.None?) }

  function BinaryAfter(binary: bool, opcode: nat): bool {
    if opcode == TEXT || opcode == BINARY then opcode == BINARY else binary
  }

  /** What a receiver knows of a frame after its header. */
  function InfoAfter(role: Role, i: Info, f: Frame): Info {
    Info(f.opcode, f.final, BinaryAfter(i.binary, f.opcode), f.mask.Some?, |f.payload|,
         if f.mask.Some? then f.mask.value else i.key,
         if role == Server then f.mask.None? || f.mask.value == [0, 0, 0, 0] else i.allZero,
         if f.mask.Some? then 0 else i.maskIndex)
  }

  /** With the whole header in, the payload is next; an empty frame is complete. */
  function Begun(role: Role, s: State): State {
    if s.info.length != 0 then s.(phase := Payload) else Spill(role, s.(phase := New))
  }

  lemma {:induction false} FirstRun(role: Role, s: State, f: Frame)
    requires Idle(s) && ValidFrame(f)
    ensures First(role, s, FirstByte(f))
         == State(HeaderLength,
                  s.info.(opcode := f.opcode, final := f.final, binary := BinaryAfter(s.info.binary, f.opcode),
                          allZero := role == Server || s.info.allZero),
                  [], s.view)
  {
    assert FirstByte(f) % 16 == f.opcode;
  }

  // ----- Lengths

  lemma {:induction false} TopByte(n: nat)
    requires n < 0x8000_0000_0000_0000
    ensures ByteAt(n, 7) < 128 && High(n, 8) == 0
  {
    assert Pow256(7) == 0x100_0000_0000_0000 && Pow256(8) == 0x1_0000_0000_0000_0000;
  }

  lemma {:induction false} TwoBytes(n: nat)
    requires n < 65536
    ensures High(n, 2) == 0
  {
    assert Pow256(2) == 65536;
  }

  /** What is put together of an extended length before its last k bytes. */
  predicate Partial(s: State, n: nat, k: nat) {
    && !s.view.killed && 0 < k && n < 0x8000_0000_0000_0000
    && ((s.phase == Length16(k) && k <= 2) || (s.phase == Length64(k) && k <= 8))
    && High(n, k) == if s.phase == Length16(2) || s.phase == Length64(8) then 0 else s.info.length
  }

  lemma {:induction false} LongTurn(role: Role, s: State, n: nat, k: nat, t: State)
    requires Partial(s, n, k) && t == LongLength(role, s, ByteAt(n, k - 1))
    ensures k == 1 ==> t == Measured(role, s.(info := s.info.(length := n)), true)
    ensures k > 1 ==> Partial(t, n, k - 1) && t.(phase := s.phase, info := t.info.(length := s.info.length)) == s
  {
    TopByte(n);
    HighByByte(n, k - 1);
    assert Pow256(0) == 1;
  }

  /** The bytes of an extended length put it together. */
  lemma {:induction false} LongRun(role: Role, capacity: nat, s: State, n: nat, k: nat)
    requires Partial(s, n, k)
    ensures Run(role, capacity, s, BigEndian(n, k)) == Measured(role, s.(info := s.info.(length := n)), true)
    decreases k
  {
    var t := LongLength(role, s, ByteAt(n, k - 1));
    LongTurn(role, s, n, k, t);
    assert BigEndian(n, k)[1..] == BigEndian(n, k - 1);
    assert Run(role, capacity, s, BigEndian(n, k)) == Run(role, capacity, t, BigEndian(n, k - 1));
    if k > 1 {
      LongRun(role, capacity, t, n, k - 1);
      assert t.(info := t.info.(length := n), phase := s.phase) == s.(info := s.info.(length := n));
      MeasuredPhase(role, t.(info := t.info.(length := n)), s.phase, true);
    }
  }

  lemma {:induction false} MeasuredPhase(role: Role, s: State, phase: Phase, extended: bool)
    ensures Measured(role, s.(phase := phase), extended) == Measured(role, s, extended)
  {
  }

  lemma {:induction false} RunOne(role: Role, capacity: nat, s: State, c: byte, rest: seq<byte>)
    requires Ready(s)
    ensures Run(role, capacity, s, [c] + rest) == Run(role, capacity, Step(role, capacity, s, c), rest)
  {
    assert ([c] + rest)[1..] == rest;
  }

  lemma {:induction false} ShortLengthRun(role: Role, capacity: nat, s: State, len: nat, masked: bool, c: byte)
    requires s.phase == HeaderLength && !s.view.killed && len < 126 && (role == Client ==> !masked)
    requires c == len + if masked then 128 else 0
    ensures Run(role, capacity, s, [c]) == Measured(role, s.(info := s.info.(masked := masked, length := len)), false)
  {
    RunOne(role, capacity, s, c, []);
    assert [c] + [] == [c];
  }

  lemma {:induction false} LongLengthStep(role: Role, s: State, masked: bool, k: nat, c: byte)
    requires s.phase == HeaderLength && (k == 2 || k == 8)
    requires s.info.opcode / 8 % 2 != 1 && c == (if k == 2 then 126 else 127) + if masked then 128 else 0
    ensures ShortLength(role, s, c)
         == s.(info := s.info.(masked := masked), phase := if k == 2 then Length16(2) else Length64(8))
  {
  }

  lemma {:induction false} LongLengthPartial(s: State, len: nat, k: nat)
    requires !s.view.killed && len < 0x8000_0000_0000_0000 && ((k == 2 && len < 65536) || k == 8)
    requires s.phase == if k == 2 then Length16(2) else Length64(8)
    ensures Partial(s, len, k)
  {
    if k == 2 {
      TwoBytes(len);
    } else {
      TopByte(len);
    }
  }

  lemma {:induction false} LongLengthRun(role: Role, capacity: nat, s: State, masked: bool, k: nat, c: byte, t: State, rest: seq<byte>)
    requires s.phase == HeaderLength && !s.view.killed && (k == 2 || k == 8)
    requires s.info.opcode / 8 % 2 != 1 && c == (if k == 2 then 126 else 127) + if masked then 128 else 0
    requires t == s.(info := s.info.(masked := masked), phase := if k == 2 then Length16(2) else Length64(8))
    ensures Run(role, capacity, s, [c] + rest) == Run(role, capacity, t, rest)
  {
    RunOne(role, capacity, s, c, rest);
    LongLengthStep(role, s, masked, k, c);
  }

  lemma {:induction false} LengthRun(role: Role, capacity: nat, s: State, len: nat, masked: bool)
    requires s.phase == HeaderLength && !s.view.killed && len < 0x8000_0000_0000_0000
    requires (s.info.opcode / 8 % 2 == 1 ==> len < 126) && (role == Client ==> !masked)
    ensures Run(role, capacity, s, LengthBytes(len, masked))
         == Measured(role, s.(info := s.info.(masked := masked, length := len)), len >= 126)
  {
    var bit := if masked then 128 else 0;
    if len < 126 {
      ShortLengthRun(role, capacity, s, len, masked, len + bit);
    } else {
      var k := if len < 65536 then 2 else 8;
      var t := s.(info := s.info.(masked := masked), phase := if k == 2 then Length16(2) else Length64(8));
      LongLengthRun(role, capacity, s, masked, k, (if k == 2 then 126 else 127) + bit, t, BigEndian(len, k));
      LongLengthPartial(t, len, k);
      LongRun(role, capacity, t, len, k);
      MeasuredPhase(role, t.(info := t.info.(length := len)), s.phase, true);
    }
  }

  // ----- The key

  lemma {:induction false} RunFour(role: Role, capacity: nat, s: State, key: Nonce, t1: State, t2: State, t3: State, t4: State)
    requires Ready(s) && t1 == Step(role, capacity, s, key[0]) && t2 == Step(role, capacity, t1, key[1])
    requires t3 == Step(role, capacity, t2, key[2]) && t4 == Step(role, capacity, t3, key[3])
    ensures Run(role, capacity, s, key) == t4
  {
    assert key == [key[0]] + ([key[1]] + ([key[2]] + ([key[3]] + [])));
    RunOne(role, capacity, s, key[0], [key[1]] + ([key[2]] + ([key[3]] + [])));
    RunOne(role, capacity, t1, key[1], [key[2]] + ([key[3]] + []));
    RunOne(role, capacity, t2, key[2], [key[3]] + []);
    RunOne(role, capacity, t3, key[3], []);
  }

  lemma {:induction false} KeyRun(role: Role, capacity: nat, s: State, key: Nonce)
    requires s.phase == CollectKey(0) && !s.view.killed && role == Server
    ensures Run(role, capacity, s, key)
         == Begun(role, s.(info := s.info.(key := key, allZero := s.info.allZero && key == [0, 0, 0, 0], maskIndex := 0)))
  {
    var t1 := KeyByte(role, s, key[0]);
    var t2 := KeyByte(role, t1, key[1]);
    var t3 := KeyByte(role, t2, key[2]);
    assert t3.info.key[3 := key[3]] == key;
    RunFour(role, capacity, s, key, t1, t2, t3, KeyByte(role, t3, key[3]));
  }

  // ----- The header

  lemma {:induction false} HeaderRun(role: Role, capacity: nat, s: State, f: Frame)
    requires Idle(s) && Acceptable(role, f)
    ensures Run(role, capacity, s, Header(f)) == Begun(role, State(New, InfoAfter(role, s.info, f), [], s.view))
  {
    var len, masked := |f.payload|, f.mask.Some?;
    var t := First(role, s, FirstByte(f));
    FirstRun(role, s, f);
    assert Header(f) == [FirstByte(f)] + (LengthBytes(len, masked) + Key(f.mask));
    RunOne(role, capacity, s, FirstByte(f), LengthBytes(len, masked) + Key(f.mask));
    LengthRun(role, capacity, t, len, masked);
    RunThen(role, capacity, t, LengthBytes(len, masked), Key(f.mask));
    var u := Measured(role, t.(info := t.info.(masked := masked, length := len)), len >= 126);
    if masked {
      KeyRun(role, capacity, u, f.mask.value);
    } else {
      assert Run(role, capacity, u, []) == u;
    }
  }
}
