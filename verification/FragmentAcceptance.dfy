/** Which CRC_EXTRA byte of the extended message lets a receiver accept what the sender emits. */
module FragmentAcceptance {
  import opened Bits
  import opened CrcStep
  import opened CrcPolynomial
  import opened Crc
  import opened MavlinkMessages
  import opened Fragments
  import opened Reassembly

  /** A fragment's check bytes were computed with extra byte 0; the receiver uses its table's byte. */
  lemma {:induction false} EmittedValidWhen(link: Link, r: Route, h: ExtHeader, junk: Message, seqno: byte, payload: seq<byte>)
    requires r.acc == link.accumulate
    ensures var f := Fragment(BaseOf(r, h, junk, seqno), payload);
            var body := AccumulateAll(r.acc, X25_INIT_CRC, Body(f.base)[1..]);
            var sent, expected := r.acc(0, body), r.acc(link.extra(EXTENDED_MESSAGE_ID), body);
            ValidFragment(link, f) <==> LowByte(sent) == LowByte(expected) || HighByte(sent) == HighByte(expected)
  {
    var filled := junk.(msgid := EXTENDED_MESSAGE_ID, buffer := Encode(h) + junk.buffer[EXTENDED_HEADER_LEN..]);
    HeaderRoundTrip(h, junk.buffer[EXTENDED_HEADER_LEN..]);
    FinalizedWellFormed(Link(r.acc, _ => 0), filled, seqno, r.systemId, r.componentId, EXTENDED_HEADER_LEN);
  }

  /** The checksum steps for two bytes differ by what the difference of the bytes spreads to. */
  lemma {:induction false} StepsDiffer(crc: word, e: byte)
    ensures Accumulate(e, crc) == XorWord(Accumulate(0, crc), FourSteps(FourSteps(e)))
  {
    AccumulateIsBitSerial(e, crc);
    AccumulateIsBitSerial(0, crc);
    XorZero(crc);
    FourStepsLinear(crc, e);
    FourStepsLinear(FourSteps(crc), FourSteps(e));
  }

  lemma {:induction false} LowByteOfXor(a: word, b: word)
    ensures LowByte(XorWord(a, b)) == XorByte(LowByte(a), LowByte(b))
  {
    LowByteSplit(a, b, a / 256, a % 256, b / 256, b % 256);
  }

  lemma {:induction false} LowByteSplit(a: word, b: word, h: nat, x: byte, k: nat, y: byte)
    requires a == h * 256 + x && b == k * 256 + y
    ensures LowByte(XorWord(a, b)) == XorByte(x, y)
  {
    assert Power(8) == 256;
    XorSplit(8, 256, h, k, x, y, a, b);
    XorStaysByte(x, y);
    LowOfSum(XorWord(a, b), Xor(h, k), Xor(x, y));
  }

  lemma {:induction false} LowOfSum(w: word, h: nat, l: nat)
    requires l < 256 && w == h * 256 + l
    ensures LowByte(w) == l
  {
  }

  lemma {:induction false} SpreadLow(e: byte, h: nat, l: nat, n: nat)
    requires h < 16 && l < 16 && e == 16 * h + l && n == Xor(h, l)
    ensures n < 16 && LowByte(FourSteps(FourSteps(e))) == XorByte(n % 2 * 128 + n, 8 * l)
  {
    TapsLinear(h, l);
    EightStepsOf(e, 0, h, l);
    XorZero(Xor(4225 * n, 264 * l));
    LowParts(n, l);
    LowByteOfXor(4225 * n, 264 * l);
  }

  /** Only 0 and 0x91 leave the low byte of the checksum as it is. */
  lemma {:induction false} LowByteUnchanged(e: byte, h: nat, l: nat)
    requires h < 16 && l < 16 && e == 16 * h + l
    ensures LowByte(FourSteps(FourSteps(e))) == 0 <==> e == 0 || e == 0x91
  {
    var n := Xor(h, l);
    SpreadLow(e, h, l, n);
    LowParts(n, l);
    NibbleFromXor(h, l, n);
    if Xor(n % 2 * 128 + n, 8 * l) == 0 {
      XorZeroMeansEqual(n % 2 * 128 + n, 8 * l);
    } else if e == 0x91 {
      Xor91();
      XorSelf(8);
    }
  }

  lemma {:induction false} LowParts(n: nat, l: nat)
    requires n < 16 && l < 16
    ensures LowByte(4225 * n) == n % 2 * 128 + n && LowByte(264 * l) == 8 * l
    ensures n % 2 * 128 + n == 8 * l <==> (n == 0 && l == 0) || (n == 8 && l == 1)
  {
    assert 4225 * n == 256 * (16 * n + n / 2) + (n % 2 * 128 + n);
    assert 264 * l == 256 * l + 8 * l;
  }

  lemma {:induction false} XorZeroMeansEqual(a: nat, b: nat)
    requires Xor(a, b) == 0
    ensures a == b
  {
    XorCancels(a, b);
    XorZero(b);
  }

  lemma {:induction false} Xor91()
    ensures Xor(9, 1) == 8
  {
    XorAppend(9, 1, 4, 0, 1, 1);
    XorZero(4);
  }

  lemma {:induction false} NibbleFromXor(h: nat, l: nat, n: nat)
    requires n == Xor(h, l)
    ensures n == 0 && l == 0 ==> h == 0
    ensures n == 8 && l == 1 ==> h == 9
  {
    XorCancels(h, l);
    XorZero(0);
    if n == 8 && l == 1 {
      XorAppend(8, 1, 4, 0, 0, 1);
      XorZero(4);
    }
  }

  /**
   * Fragments sent under the X.25 checksum with extra byte 0 pass validFragment exactly when the
   * receiver's CRC_EXTRA byte for message 255 is 0 or 0x91; the latter only because validFragment
   * rejects on both check bytes differing rather than on either.
   */
  lemma {:induction false} EmittedAccepted(extra: byte -> byte, r: Route, h: ExtHeader, junk: Message, seqno: byte, payload: seq<byte>)
    requires r.acc == Accumulate
    ensures ValidFragment(Link(Accumulate, extra), Fragment(BaseOf(r, h, junk, seqno), payload))
       <==> extra(EXTENDED_MESSAGE_ID) == 0 || extra(EXTENDED_MESSAGE_ID) == 0x91
  {
    var link, e := Link(Accumulate, extra), extra(EXTENDED_MESSAGE_ID);
    var f := Fragment(BaseOf(r, h, junk, seqno), payload);
    var crc := AccumulateAll(Accumulate, X25_INIT_CRC, Body(f.base)[1..]);
    EmittedValidWhen(link, r, h, junk, seqno, payload);
    CheckBytesAgree(e, crc);
  }

  /** With a CRC_EXTRA byte of 0, as in the table, everything a sender splits can be reassembled. */
  lemma {:induction false} EmittedAcceptable(extra: byte -> byte, m: Manager, r: Route, data: seq<byte>, junk: Message, txSeq: byte,
                          sent: seq<Fragment>)
    requires r.acc == Accumulate && extra(EXTENDED_MESSAGE_ID) == 0 && r.typecode < |m.messages|
    requires Fits(r, |data|) && |sent| == CountOf(r, |data|) && AllEmitted(r, data, junk, txSeq, sent)
    ensures Acceptable(Link(Accumulate, extra), m, r, data, sent)
  {
    forall i | 0 <= i < |sent|
      ensures IsFragment(r, data, i, sent[i]) && ValidFragment(Link(Accumulate, extra), sent[i])
    {
      var f := sent[i];
      assert Emitted(r, data, junk, txSeq, i, f);
      EmittedAccepted(extra, r, HeaderOf(f), junk, (txSeq + i) % 0x100, f.payload);
      assert f == Fragment(f.base, f.payload);
    }
  }

  lemma {:induction false} CheckBytesAgree(e: byte, crc: word)
    ensures LowByte(Accumulate(0, crc)) == LowByte(Accumulate(e, crc))
            || HighByte(Accumulate(0, crc)) == HighByte(Accumulate(e, crc))
       <==> e == 0 || e == 0x91
  {
    if HighByte(Accumulate(0, crc)) == HighByte(Accumulate(e, crc)) {
      ByteDetected(crc, 0, e);
    }
    StepsDiffer(crc, e);
    var s, d := Accumulate(0, crc), FourSteps(FourSteps(e));
    LowByteOfXor(s, d);
    LowByteUnchanged(e, e / 16, e % 16);
    XorZero(LowByte(s));
    if LowByte(s) == XorByte(LowByte(s), LowByte(d)) {
      XorLeftCancels(0, LowByte(d), LowByte(s));
    }
  }
}
