/** The senders: the pulses each protocol puts on the line for a data word. */
module IrSend {
  import opened IrSignal
  import opened IrProtocol

  // ----- The frames, as functions of the bits they carry

  /** The pulses of a row of bits, where shape gives the pulses of the bit at an index. */
  function Row(bits: seq<bool>, shape: (nat, bool) -> seq<Pulse>): seq<Pulse> {
    if bits == [] then []
    else Row(bits[..|bits| - 1], shape) + shape(|bits| - 1, bits[|bits| - 1])
  }

  /** Sending the pulses of the next bit extends the row by one. */
  lemma {:induction false} RowStep(wire: seq<Pulse>, start: seq<Pulse>, bits: seq<bool>, i: nat, shape: (nat, bool) -> seq<Pulse>,
                first: Pulse, second: Pulse)
    requires i < |bits| && wire == start + Row(bits[..i], shape) && shape(i, bits[i]) == [first, second]
    ensures wire + [first] + [second] == start + Row(bits[..i + 1], shape)
  {
    assert bits[..i + 1][..i] == bits[..i];
  }

  lemma {:induction false} Closed(wire: seq<Pulse>, head: seq<Pulse>, row: seq<Pulse>, last: Pulse)
    ensures wire + head + row + [last] == wire + (head + row + [last])
    ensures wire + head + row + [last] + [Pulse(SPACE, 0)] == wire + (head + row + [last, Pulse(SPACE, 0)])
  {
  }

  function NecBit(i: nat, b: bool): seq<Pulse> {
    [Pulse(MARK, NEC_BIT_MARK), Pulse(SPACE, if b then NEC_ONE_SPACE else NEC_ZERO_SPACE)]
  }

  function SonyBit(i: nat, b: bool): seq<Pulse> {
    [Pulse(MARK, if b then SONY_ONE_MARK else SONY_ZERO_MARK), Pulse(SPACE, SONY_HDR_SPACE)]
  }

  /** A half bit for each level, the levels told apart by their order. */
  function Rc5Bit(i: nat, b: bool): seq<Pulse> {
    if b then [Pulse(SPACE, RC5_T1), Pulse(MARK, RC5_T1)] else [Pulse(MARK, RC5_T1), Pulse(SPACE, RC5_T1)]
  }

  /** As in RC5 with the order reversed, and the bit at index 3, the trailer bit, twice as wide. */
  function Rc6Bit(i: nat, b: bool): seq<Pulse> {
    var t := if i == 3 then 2 * RC6_T1 else RC6_T1;
    if b then [Pulse(MARK, t), Pulse(SPACE, t)] else [Pulse(SPACE, t), Pulse(MARK, t)]
  }

  function PanasonicBit(i: nat, b: bool): seq<Pulse> {
    [Pulse(MARK, PANASONIC_BIT_MARK), Pulse(SPACE, if b then PANASONIC_ONE_SPACE else PANASONIC_ZERO_SPACE)]
  }

  function JvcBit(i: nat, b: bool): seq<Pulse> {
    [Pulse(MARK, JVC_BIT_MARK), Pulse(SPACE, if b then JVC_ONE_SPACE else JVC_ZERO_SPACE)]
  }

  function NecWave(bits: seq<bool>): seq<Pulse> {
    [Pulse(MARK, NEC_HDR_MARK), Pulse(SPACE, NEC_HDR_SPACE)] + Row(bits, NecBit)
    + [Pulse(MARK, NEC_BIT_MARK), Pulse(SPACE, 0)]
  }

  function SonyWave(bits: seq<bool>): seq<Pulse> {
    [Pulse(MARK, SONY_HDR_MARK), Pulse(SPACE, SONY_HDR_SPACE)] + Row(bits, SonyBit)
  }

  function Rc5Wave(bits: seq<bool>): seq<Pulse> {
    [Pulse(MARK, RC5_T1), Pulse(SPACE, RC5_T1), Pulse(MARK, RC5_T1)] + Row(bits, Rc5Bit) + [Pulse(SPACE, 0)]
  }

  function Rc6Wave(bits: seq<bool>): seq<Pulse> {
    [Pulse(MARK, RC6_HDR_MARK), Pulse(SPACE, RC6_HDR_SPACE), Pulse(MARK, RC6_T1), Pulse(SPACE, RC6_T1)]
    + Row(bits, Rc6Bit) + [Pulse(SPACE, 0)]
  }

  function PanasonicWave(bits: seq<bool>): seq<Pulse> {
    [Pulse(MARK, PANASONIC_HDR_MARK), Pulse(SPACE, PANASONIC_HDR_SPACE)] + Row(bits, PanasonicBit)
    + [Pulse(MARK, PANASONIC_BIT_MARK), Pulse(SPACE, 0)]
  }

  function JvcWave(bits: seq<bool>, repeat: bool): seq<Pulse> {
    (if repeat then [] else [Pulse(MARK, JVC_HDR_MARK), Pulse(SPACE, JVC_HDR_SPACE)]) + Row(bits, JvcBit)
    + [Pulse(MARK, JVC_BIT_MARK), Pulse(SPACE, 0)]
  }

  // ----- The senders

  /** The digits that a register with the given top bit shows after s shifts: those of x, then zeros. */
  function Sent(x: nat, n: nat): (bits: seq<bool>)
    ensures |bits| == n
  {
    seq(n, i requires 0 <= i < n => i < 32 && Digits(x, 32)[i])
  }

  lemma {:induction false} WordDigit(word: nat, n: nat, i: nat)
    requires word < WORD && i < n <= 32
    ensures Register(word, 32 - n + i, TOPBIT) >= TOPBIT <==> Digits(word, n)[i]
  {
    Pow2Word();
    NextBit(word, 32 - n, i, n, TOPBIT);
  }

  lemma {:induction false} AddressDigit(address: nat, i: nat)
    requires address < 0x1_0000 && i < 16
    ensures Register(address, i, 0x8000) >= 0x8000 <==> Digits(address, 16)[i]
  {
    Pow2Word();
    NextBit(address, 0, i, 16, 0x8000);
  }

  lemma {:induction false} ShiftedOut(word: nat, n: nat)
    requires word < WORD
    ensures Register(word, 32 + n, TOPBIT) == 0
  {
    RegisterIsProduct(word, 32 + n, TOPBIT, WORD);
    Pow2Word();
    Pow2Plus(32, n);
    Multiple(word, WORD, Pow2(n));
  }

  lemma {:induction false} SentDigit(word: nat, n: nat, i: nat)
    requires word < WORD && i < n
    ensures Register(word, i, TOPBIT) >= TOPBIT <==> Sent(word, n)[i]
  {
    if i < 32 {
      WordDigit(word, 32, i);
    } else {
      ShiftedOut(word, i - 32);
    }
  }

  /** The left shift before a sender's loop: the n bits to be sent come to the top of the register. */
  method Aligned(word: nat, n: nat) returns (data: nat)
    requires word < WORD && 1 <= n <= 32
    ensures data == Register(word, 32 - n, TOPBIT)
  {
    data := word * Pow2(32 - n) % WORD;
    RegisterIsProduct(word, 32 - n, TOPBIT, WORD);
  }

  class IRsend {
    /** Every pulse sent so far. */
    var wire: seq<Pulse>

    constructor ()
      ensures wire == []
    {
      wire := [];
    }

    method Mark(time: nat)
      modifies this
      ensures wire == old(wire) + [Pulse(MARK, time)]
    {
      wire := wire + [Pulse(MARK, time)];
    }

    method Space(time: nat)
      modifies this
      ensures wire == old(wire) + [Pulse(SPACE, time)]
    {
      wire := wire + [Pulse(SPACE, time)];
    }

    method SendNEC(word: nat, nbits: nat)
      requires word < WORD
      modifies this
      ensures wire == old(wire) + NecWave(Sent(word, nbits))
    {
      ghost var bits := Sent(word, nbits);
      Mark(NEC_HDR_MARK);
      Space(NEC_HDR_SPACE);
      ghost var head := [Pulse(MARK, NEC_HDR_MARK), Pulse(SPACE, NEC_HDR_SPACE)];
      ghost var start := old(wire) + head;
      assert wire == start;
      var data: nat := word;
      for i := 0 to nbits
        invariant data == Register(word, i, TOPBIT)
        invariant wire == start + Row(bits[..i], NecBit)
      {
        SentDigit(word, nbits, i);
        if data >= TOPBIT {
          RowStep(wire, start, bits, i, NecBit, Pulse(MARK, NEC_BIT_MARK), Pulse(SPACE, NEC_ONE_SPACE));
          Mark(NEC_BIT_MARK);
          Space(NEC_ONE_SPACE);
        } else {
          RowStep(wire, start, bits, i, NecBit, Pulse(MARK, NEC_BIT_MARK), Pulse(SPACE, NEC_ZERO_SPACE));
          Mark(NEC_BIT_MARK);
          Space(NEC_ZERO_SPACE);
        }
        data := 2 * data % WORD;
      }
      assert bits[..nbits] == bits;
      assert wire == start + Row(bits, NecBit);
      Closed(old(wire), head, Row(bits, NecBit), Pulse(MARK, NEC_BIT_MARK));
      Mark(NEC_BIT_MARK);
      Space(0);
    }

    method SendSony(word: nat, nbits: nat)
      requires word < WORD && 1 <= nbits <= 32
      modifies this
      ensures wire == old(wire) + SonyWave(Digits(word, nbits))
    {
      ghost var bits := Digits(word, nbits);
      Mark(SONY_HDR_MARK);
      Space(SONY_HDR_SPACE);
      ghost var head := [Pulse(MARK, SONY_HDR_MARK), Pulse(SPACE, SONY_HDR_SPACE)];
      ghost var start := old(wire) + head;
      assert wire == start;
      var data: nat := Aligned(word, nbits);
      for i := 0 to nbits
        invariant data == Register(word, 32 - nbits + i, TOPBIT)
        invariant wire == start + Row(bits[..i], SonyBit)
      {
        WordDigit(word, nbits, i);
        if data >= TOPBIT {
          RowStep(wire, start, bits, i, SonyBit, Pulse(MARK, SONY_ONE_MARK), Pulse(SPACE, SONY_HDR_SPACE));
          Mark(SONY_ONE_MARK);
          Space(SONY_HDR_SPACE);
        } else {
          RowStep(wire, start, bits, i, SonyBit, Pulse(MARK, SONY_ZERO_MARK), Pulse(SPACE, SONY_HDR_SPACE));
          Mark(SONY_ZERO_MARK);
          Space(SONY_HDR_SPACE);
        }
        data := 2 * data % WORD;
      }
      assert bits[..nbits] == bits;
      assert wire == start + Row(bits, SonyBit);
      assert old(wire) + head + Row(bits, SonyBit) == old(wire) + (head + Row(bits, SonyBit));
    }

    method SendRC5(word: nat, nbits: nat)
      requires word < WORD && 1 <= nbits <= 32
      modifies this
      ensures wire == old(wire) + Rc5Wave(Digits(word, nbits))
    {
      ghost var bits := Digits(word, nbits);
      var data: nat := Aligned(word, nbits);
      Mark(RC5_T1);
      Space(RC5_T1);
      Mark(RC5_T1);
      ghost var head := [Pulse(MARK, RC5_T1), Pulse(SPACE, RC5_T1), Pulse(MARK, RC5_T1)];
      ghost var start := old(wire) + head;
      assert wire == start;
      for i := 0 to nbits
        invariant data == Register(word, 32 - nbits + i, TOPBIT)
        invariant wire == start + Row(bits[..i], Rc5Bit)
      {
        WordDigit(word, nbits, i);
        if data >= TOPBIT {
          RowStep(wire, start, bits, i, Rc5Bit, Pulse(SPACE, RC5_T1), Pulse(MARK, RC5_T1));
          Space(RC5_T1);
          Mark(RC5_T1);
        } else {
          RowStep(wire, start, bits, i, Rc5Bit, Pulse(MARK, RC5_T1), Pulse(SPACE, RC5_T1));
          Mark(RC5_T1);
          Space(RC5_T1);
        }
        data := 2 * data % WORD;
      }
      assert bits[..nbits] == bits;
      assert wire == start + Row(bits, Rc5Bit);
      Closed(old(wire), head, Row(bits, Rc5Bit), Pulse(SPACE, 0));
      Space(0);
    }

    method SendRC6(word: nat, nbits: nat)
      requires word < WORD && 1 <= nbits <= 32
      modifies this
      ensures wire == old(wire) + Rc6Wave(Digits(word, nbits))
    {
      ghost var bits := Digits(word, nbits);
      var data: nat := Aligned(word, nbits);
      Mark(RC6_HDR_MARK);
      Space(RC6_HDR_SPACE);
      Mark(RC6_T1);
      Space(RC6_T1);
      ghost var head := [Pulse(MARK, RC6_HDR_MARK), Pulse(SPACE, RC6_HDR_SPACE), Pulse(MARK, RC6_T1), Pulse(SPACE, RC6_T1)];
      ghost var start := old(wire) + head;
      assert wire == start;
      for i := 0 to nbits
        invariant data == Register(word, 32 - nbits + i, TOPBIT)
        invariant wire == start + Row(bits[..i], Rc6Bit)
      {
        WordDigit(word, nbits, i);
        var t := if i == 3 then 2 * RC6_T1 else RC6_T1;
        if data >= TOPBIT {
          RowStep(wire, start, bits, i, Rc6Bit, Pulse(MARK, t), Pulse(SPACE, t));
          Mark(t);
          Space(t);
        } else {
          RowStep(wire, start, bits, i, Rc6Bit, Pulse(SPACE, t), Pulse(MARK, t));
          Space(t);
          Mark(t);
        }
        data := 2 * data % WORD;
      }
      assert bits[..nbits] == bits;
      assert wire == start + Row(bits, Rc6Bit);
      Closed(old(wire), head, Row(bits, Rc6Bit), Pulse(SPACE, 0));
      Space(0);
    }

    /** One loop over the address, tested at its own top bit 0x8000, and one over the data. */
    method SendPanasonic(address: nat, word: nat)
      requires address < 0x1_0000 && word < WORD
      modifies this
      ensures wire == old(wire) + PanasonicWave(Digits(address, 16) + Digits(word, 32))
    {
      ghost var upper, lower := Digits(address, 16), Digits(word, 32);
      ghost var bits := upper + lower;
      Mark(PANASONIC_HDR_MARK);
      Space(PANASONIC_HDR_SPACE);
      ghost var head := [Pulse(MARK, PANASONIC_HDR_MARK), Pulse(SPACE, PANASONIC_HDR_SPACE)];
      ghost var start := old(wire) + head;
      assert wire == start;
      var register: nat := address;
      for i := 0 to 16
        invariant register == Register(address, i, 0x8000)
        invariant wire == start + Row(bits[..i], PanasonicBit)
      {
        assert bits[i] == upper[i];
        AddressDigit(address, i);
        ghost var sofar := wire;
        Mark(PANASONIC_BIT_MARK);
        if register >= 0x8000 {
          RowStep(sofar, start, bits, i, PanasonicBit, Pulse(MARK, PANASONIC_BIT_MARK), Pulse(SPACE, PANASONIC_ONE_SPACE));
          Space(PANASONIC_ONE_SPACE);
        } else {
          RowStep(sofar, start, bits, i, PanasonicBit, Pulse(MARK, PANASONIC_BIT_MARK), Pulse(SPACE, PANASONIC_ZERO_SPACE));
          Space(PANASONIC_ZERO_SPACE);
        }
        register := 2 * register % 0x1_0000;
      }
      var data: nat := word;
      for i := 0 to 32
        invariant data == Register(word, i, TOPBIT)
        invariant wire == start + Row(bits[..16 + i], PanasonicBit)
      {
        assert bits[16 + i] == lower[i];
        WordDigit(word, 32, i);
        ghost var sofar := wire;
        Mark(PANASONIC_BIT_MARK);
        if data >= TOPBIT {
          RowStep(sofar, start, bits, 16 + i, PanasonicBit, Pulse(MARK, PANASONIC_BIT_MARK), Pulse(SPACE, PANASONIC_ONE_SPACE));
          Space(PANASONIC_ONE_SPACE);
        } else {
          RowStep(sofar, start, bits, 16 + i, PanasonicBit, Pulse(MARK, PANASONIC_BIT_MARK), Pulse(SPACE, PANASONIC_ZERO_SPACE));
          Space(PANASONIC_ZERO_SPACE);
        }
        data := 2 * data % WORD;
      }
      assert bits[..48] == bits;
      assert wire == start + Row(bits, PanasonicBit);
      Closed(old(wire), head, Row(bits, PanasonicBit), Pulse(MARK, PANASONIC_BIT_MARK));
      Mark(PANASONIC_BIT_MARK);
      Space(0);
    }

    method SendJVC(word: nat, nbits: nat, repeat: bool)
      requires word < WORD && 1 <= nbits <= 32
      modifies this
      ensures wire == old(wire) + JvcWave(Digits(word, nbits), repeat)
    {
      ghost var bits := Digits(word, nbits);
      var data: nat := Aligned(word, nbits);
      if !repeat {
        Mark(JVC_HDR_MARK);
        Space(JVC_HDR_SPACE);
      }
      ghost var head := if repeat then [] else [Pulse(MARK, JVC_HDR_MARK), Pulse(SPACE, JVC_HDR_SPACE)];
      ghost var start := old(wire) + head;
      assert wire == start;
      for i := 0 to nbits
        invariant data == Register(word, 32 - nbits + i, TOPBIT)
        invariant wire == start + Row(bits[..i], JvcBit)
      {
        WordDigit(word, nbits, i);
        if data >= TOPBIT {
          RowStep(wire, start, bits, i, JvcBit, Pulse(MARK, JVC_BIT_MARK), Pulse(SPACE, JVC_ONE_SPACE));
          Mark(JVC_BIT_MARK);
          Space(JVC_ONE_SPACE);
        } else {
          RowStep(wire, start, bits, i, JvcBit, Pulse(MARK, JVC_BIT_MARK), Pulse(SPACE, JVC_ZERO_SPACE));
          Mark(JVC_BIT_MARK);
          Space(JVC_ZERO_SPACE);
        }
        data := 2 * data % WORD;
      }
      assert bits[..nbits] == bits;
      assert wire == start + Row(bits, JvcBit);
      Closed(old(wire), head, Row(bits, JvcBit), Pulse(MARK, JVC_BIT_MARK));
      Mark(JVC_BIT_MARK);
      Space(0);
    }
  }
}
