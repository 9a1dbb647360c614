/** The shift form of crc_accumulate divides by the X.25 polynomial bit by bit. */
module CrcPolynomial {
  import opened Bits
  import opened CrcStep

  /** The generator x^16 + x^12 + x^5 + 1, bit-reversed, as in RFC 1662 appendix C.2. */
  const POLYNOMIAL: word := 0x8408

  /** One division step: shift a bit out, and subtract the polynomial when it was set. */
  function BitStep(v: word): word {
    if v % 2 == 1 then XorWord(v / 2, POLYNOMIAL) else v / 2
  }

  function FourSteps(v: word): word {
    BitStep(BitStep(BitStep(BitStep(v))))
  }

  /** The polynomial when the bit shifted out was set. */
  function Feedback(bit: nat): word {
    if bit == 1 then POLYNOMIAL else 0
  }

  lemma {:induction false} BitStepFeedback(v: word)
    ensures BitStep(v) == Xor(v / 2, Feedback(v % 2))
  {
    XorZero(v / 2);
  }

  lemma {:induction false} FeedbackLinear(a: nat, b: nat, c: nat)
    requires a < 2 && b < 2 && c == (a + b) % 2
    ensures Feedback(c) == Xor(Feedback(a), Feedback(b))
  {
    if a == b == 1 {
      XorSelf(POLYNOMIAL);
    } else {
      XorZero(Feedback(a));
      XorZero(Feedback(b));
    }
  }

  lemma {:induction false} BitStepLinear(v: word, w: word)
    ensures BitStep(XorWord(v, w)) == XorWord(BitStep(v), BitStep(w))
  {
    var x := XorWord(v, w);
    XorHalves(v, w, x);
    BitStepFeedback(v);
    BitStepFeedback(w);
    BitStepFeedback(x);
    ParityOfParities(v, w, x);
    FeedbackLinear(v % 2, w % 2, x % 2);
    XorInterchange(v / 2, w / 2, Feedback(v % 2), Feedback(w % 2));
  }

  lemma {:induction false} ParityOfParities(v: nat, w: nat, x: nat)
    requires x % 2 == (v + w) % 2
    ensures x % 2 == (v % 2 + w % 2) % 2
  {
  }

  lemma {:induction false} FourStepsLinear(v: word, w: word)
    ensures FourSteps(XorWord(v, w)) == XorWord(FourSteps(v), FourSteps(w))
  {
    var v1, w1 := BitStep(v), BitStep(w);
    var v2, w2 := BitStep(v1), BitStep(w1);
    BitStepLinear(v, w);
    BitStepLinear(v1, w1);
    BitStepLinear(v2, w2);
    BitStepLinear(BitStep(v2), BitStep(w2));
  }

  lemma {:induction false} BitStepEven(u: nat)
    requires u < 0x8000
    ensures BitStep(2 * u) == u
  {
    Halves(u, 0);
  }

  lemma {:induction false} FourStepsShift(u: nat)
    requires u < 0x1000
    ensures FourSteps(16 * u) == u
  {
    BitStepEven(8 * u);
    BitStepEven(4 * u);
    BitStepEven(2 * u);
    BitStepEven(u);
  }

  /** The polynomial has gaps wide enough for a nibble to appear three times without carries. */
  lemma {:induction false} TapsLinear(a: nat, b: nat)
    requires a < 16 && b < 16
    ensures Xor(a, b) < 16 && Xor(4225 * a, 4225 * b) == 4225 * Xor(a, b)
  {
    assert Power(4) == 16;
    assert Power(7) == 128;
    assert Power(12) == 4096 by { assert Power(8) == 256; }
    XorBelow(a, b, 4);
    XorSplit(7, 128, a, b, a, b, 129 * a, 129 * b);
    XorSplit(12, 4096, a, b, 129 * a, 129 * b, 4225 * a, 4225 * b);
  }

  lemma {:induction false} FourStepsPowers()
    ensures FourSteps(1) == 4225 * 1
    ensures FourSteps(2) == 4225 * 2
    ensures FourSteps(4) == 4225 * 4
    ensures FourSteps(8) == 4225 * 8
    ensures FourSteps(0) == 0
  {
    assert BitStep(1) == 0x8408 by { XorZero(POLYNOMIAL); }
    assert BitStep(0x8408) == 0x4204 && BitStep(0x4204) == 0x2102 && BitStep(0x2102) == 0x1081;
    assert BitStep(2) == 1 && BitStep(4) == 2 && BitStep(8) == 4 && BitStep(0) == 0;
  }

  ghost predicate IsLinear(f: word -> word) {
    forall v, w :: f(XorWord(v, w)) == XorWord(f(v), f(w))
  }

  /** A linear function that multiplies a power of two and a lower number multiplies their sum. */
  lemma {:induction false} LinearSum(f: word -> word, k: nat, p: nat, y: nat)
    requires IsLinear(f) && p == Power(k) && y < p <= 8 && f(p) == 4225 * p && f(y) == 4225 * y
    ensures f(p + y) == 4225 * (p + y)
  {
    assert XorWord(p, y) == p + y by {
      XorSplit(k, p, 1, 0, 0, y, p, y);
      XorZero(1);
      XorZero(y);
    }
    TapsLinear(p, y);
    assert f(XorWord(p, y)) == XorWord(f(p), f(y));
  }

  lemma {:induction false} LinearNibble(f: word -> word, k: nat, x: nat)
    requires IsLinear(f) && f(0) == 0 && f(1) == 4225 * 1 && f(2) == 4225 * 2 && f(4) == 4225 * 4 && f(8) == 4225 * 8
    requires k <= 4 && x < Power(k)
    ensures x < 16 && f(x) == 4225 * x
    decreases k
  {
    assert Power(0) == 1 && Power(1) == 2 && Power(2) == 4 && Power(3) == 8;
    if k > 0 {
      var p := Power(k - 1);
      if x < p {
        LinearNibble(f, k - 1, x);
      } else {
        LinearNibble(f, k - 1, x - p);
        LinearSum(f, k - 1, p, x - p);
      }
    }
  }

  lemma {:induction false} FourStepsNibble(x: nat)
    requires x < 16
    ensures FourSteps(x) == 4225 * x
  {
    FourStepsPowers();
    forall v, w
      ensures FourSteps(XorWord(v, w)) == XorWord(FourSteps(v), FourSteps(w))
    {
      FourStepsLinear(v, w);
    }
    assert Power(4) == 16;
    LinearNibble(FourSteps, 4, x);
  }

  lemma {:induction false} FourStepsOf(v: word, u: nat, x: nat)
    requires x < 16 && v == 16 * u + x
    ensures FourSteps(v) == Xor(u, 4225 * x)
  {
    assert Power(4) == 16;
    XorSplit(4, 16, u, 0, 0, x, 16 * u, x);
    XorZero(u);
    XorZero(x);
    FourStepsLinear(16 * u, x);
    FourStepsShift(u);
    FourStepsNibble(x);
  }

  lemma {:induction false} Disjoint(k: nat, p: nat, a: nat, y: nat)
    requires p == Power(k) && y < p
    ensures Xor(a * p, y) == a * p + y
  {
    XorSplit(k, p, a, 0, 0, y, a * p, y);
    XorZero(a);
    XorZero(y);
  }

  lemma {:induction false} Above7(a: nat, x: nat, y: nat)
    requires x == 128 * a && y < 128
    ensures Xor(x, y) == x + y
  {
    assert Power(7) == 128;
    Disjoint(7, 128, a, y);
  }

  lemma {:induction false} Above8(a: nat, x: nat, y: nat)
    requires x == 256 * a && y < 256
    ensures Xor(x, y) == x + y
  {
    assert Power(8) == 256;
    Disjoint(8, 256, a, y);
  }

  lemma {:induction false} Above12(a: nat, x: nat, y: nat)
    requires x == 4096 * a && y < 4096
    ensures Xor(x, y) == x + y
  {
    assert Power(12) == 4096 by { assert Power(8) == 256; }
    Disjoint(12, 4096, a, y);
  }

  /** tmp << 8 ^ tmp << 3 ^ tmp >> 4 for tmp with nibbles n and b. */
  lemma {:induction false} SpreadOfNibbles(tmp: byte, n: nat, b: nat)
    requires n < 16 && b < 16 && tmp == 16 * n + b
    ensures Spread(tmp) == Xor(4225 * n, 264 * b)
  {
    assert tmp / 16 == n;
    var a, b', c, d := 4096 * n, 256 * b, 128 * n, 8 * b;
    ShiftsOfNibbles(n, b, a, b', c, d);
    LeftShiftsMerge(a, b', c, d, tmp * 256, tmp * 8, 4224 * n, 264 * b, n);
    NibbleMerges(n, 4224 * n);
  }

  lemma {:induction false} ShiftsOfNibbles(n: nat, b: nat, n12: nat, b8: nat, n7: nat, b3: nat)
    requires n < 16 && b < 16 && n12 == 4096 * n && b8 == 256 * b && n7 == 128 * n && b3 == 8 * b
    ensures Xor(n12, b8) == n12 + b8 && Xor(n7, b3) == n7 + b3
    ensures Xor(n12, n7) == n12 + n7 && Xor(b8, b3) == b8 + b3
  {
    Above7(n, n7, b3);
    Above8(b, b8, b3);
    Above12(n, n12, b8);
    Above12(n, n12, n7);
  }

  lemma {:induction false} NibbleMerges(n: nat, m: nat)
    requires n < 16 && m == 4224 * n
    ensures Xor(m, n) == 4225 * n
  {
    Above7(33 * n, m, n);
  }

  lemma {:induction false} LeftShiftsMerge(n12: nat, b8: nat, n7: nat, b3: nat, high: nat, low: nat, n: nat, b: nat, last: nat)
    requires high == Xor(n12, b8) && low == Xor(n7, b3) && n == Xor(n12, n7) && b == Xor(b8, b3)
    ensures Xor(Xor(high, low), last) == Xor(Xor(n, last), b)
  {
    XorInterchange(n12, b8, n7, b3);
    XorRotate(n, b, last);
  }

  lemma {:induction false} XorRotate(a: nat, b: nat, c: nat)
    ensures Xor(Xor(a, b), c) == Xor(Xor(a, c), b)
  {
    XorAssociates(a, b, c);
    XorCommutes(b, c);
    XorAssociates(a, c, b);
  }

  lemma {:induction false} XorRegroup(h: nat, a: nat, b: nat, c: nat)
    ensures Xor(Xor(h, a), Xor(c, b)) == Xor(h, Xor(Xor(a, b), c))
  {
    XorCommutes(c, b);
    XorAssociates(h, a, Xor(b, c));
    XorAssociates(a, b, c);
  }

  lemma {:induction false} EightStepsParts(v: word, u: word, h: nat, a: nat, b: nat, y: word, z: nat)
    requires a < 16 && b < 16 && v == 16 * u + b && u == 16 * h + a && y == 4225 * b && z == 264 * b
    ensures FourSteps(FourSteps(v)) == Xor(Xor(h, 4225 * a), Xor(z, y))
  {
    FourStepsOf(v, u, b);
    FourStepsLinear(u, y);
    FourStepsOf(u, h, a);
    assert y == 16 * z + b;
    FourStepsOf(y, z, b);
  }

  lemma {:induction false} EightStepsOf(v: word, h: nat, a: nat, b: nat)
    requires a < 16 && b < 16 && v == 256 * h + 16 * a + b
    ensures FourSteps(FourSteps(v)) == Xor(h, Xor(Xor(4225 * a, 4225 * b), 264 * b))
  {
    EightStepsParts(v, 16 * h + a, h, a, b, 4225 * b, 264 * b);
    XorRegroup(h, 4225 * a, 4225 * b, 264 * b);
  }

  lemma {:induction false} MaskedInPlace(data: byte, crc: word)
    ensures XorWord(crc, data) == 256 * HighByte(crc) + Masked(data, crc)
  {
    assert Power(8) == 256;
    XorSplit(8, 256, crc / 256, 0, crc % 256, data, crc, data);
    XorZero(crc / 256);
    XorCommutes(crc % 256, data);
  }

  /** Folding in a byte is eight bit-serial division steps of the checksum xored with that byte. */
  lemma {:induction false} AccumulateIsBitSerial(data: byte, crc: word)
    ensures Accumulate(data, crc) == FourSteps(FourSteps(XorWord(crc, data)))
  {
    var m := Masked(data, crc);
    var a, b := m / 16, m % 16;
    MaskedInPlace(data, crc);
    EightStepsOf(XorWord(crc, data), HighByte(crc), a, b);
    TapsLinear(a, b);
    MixedNibbles(m, a, b);
    SpreadOfNibbles(Mixed(m), Xor(a, b), b);
  }
}
