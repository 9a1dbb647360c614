/** One step of the X.25 checksum: what crc_accumulate does to its 16-bit accumulator. */
module CrcStep {
  import opened Bits

  function LowByte(crc: word): byte { crc % 256 }

  function HighByte(crc: word): byte { crc / 256 }

  /** The data byte masked with the low byte of the checksum. */
  function Masked(data: byte, crc: word): byte {
    XorByte(data, LowByte(crc))
  }

  /** tmp ^= tmp << 4, kept to eight bits. */
  function Mixed(masked: byte): byte {
    XorByte(masked, masked * 16 % 256)
  }

  /** tmp << 8 ^ tmp << 3 ^ tmp >> 4. */
  function Spread(tmp: byte): word {
    XorWord(XorWord(tmp * 256, tmp * 8), tmp / 16)
  }

  function Accumulate(data: byte, crc: word): word {
    XorWord(HighByte(crc), Spread(Mixed(Masked(data, crc))))
  }

  // ----- Steps never lose information

  lemma {:induction false} XorWithZero(a: nat, b: nat)
    requires a == 0 || b == 0
    ensures Xor(a, b) == a + b
  {
    XorZero(a);
    XorZero(b);
  }

  /** Nibble by nibble: with high nibble h and low nibble l the mixed byte is h ^ l, then l. */
  lemma {:induction false} MixedNibbles(masked: byte, h: nat, l: nat)
    requires h < 16 && l < 16 && masked == 16 * h + l
    ensures Mixed(masked) == 16 * Xor(h, l) + l && Xor(h, l) < 16
  {
    assert Power(4) == 16;
    assert masked * 16 % 256 == 16 * l by { ShiftedOut(masked, h, l); }
    XorSplit(4, 16, h, l, l, 0, masked, 16 * l);
    XorWithZero(l, 0);
    XorBelow(h, l, 4);
  }

  lemma {:induction false} ShiftedOut(masked: byte, h: nat, l: nat)
    requires h < 16 && l < 16 && masked == 16 * h + l
    ensures masked * 16 % 256 == 16 * l
  {
    assert masked * 16 == 256 * h + 16 * l;
  }

  /** The two left shifts overlap in the high byte only by the top three bits of tmp. */
  lemma {:induction false} LeftShifts(tmp: byte, t: nat, low: byte)
    requires tmp * 8 == t * 256 + low
    ensures Xor(tmp * 256, tmp * 8) == Xor(tmp, t) * 256 + low
  {
    assert Power(8) == 256;
    XorSplit(8, 256, tmp, t, 0, low, tmp * 256, tmp * 8);
    XorWithZero(0, low);
  }

  lemma {:induction false} HighPart(h: byte, low: byte, n: byte)
    ensures Xor(h * 256 + low, n) == h * 256 + Xor(low, n) && Xor(low, n) < 256
  {
    assert Power(8) == 256;
    XorSplit(8, 256, h, 0, low, n, h * 256 + low, n);
    XorWithZero(h, 0);
    XorStaysByte(low, n);
  }

  lemma {:induction false} TopNibble(n: nat, l: nat, t: nat)
    requires n < 16 && l < 16 && t < 16
    ensures Xor(16 * n + l, t) == 16 * n + Xor(l, t) && Xor(l, t) < 16
  {
    assert Power(4) == 16;
    XorSplit(4, 16, n, 0, l, t, 16 * n + l, t);
    XorWithZero(n, 0);
    XorBelow(l, t, 4);
  }

  lemma {:induction false} SpreadBytes(tmp: byte, n: byte, t: byte, low: byte)
    requires n == tmp / 16 && tmp * 8 == t * 256 + low
    ensures Xor(tmp, t) < 256 && Xor(low, n) < 256
    ensures Spread(tmp) == Xor(tmp, t) * 256 + Xor(low, n)
  {
    LeftShifts(tmp, t, low);
    XorStaysByte(tmp, t);
    HighPart(Xor(tmp, t), low, n);
  }

  /** The high byte of what a mixed byte spreads to. */
  lemma {:induction false} SpreadHigh(tmp: byte, n: nat, l: nat)
    requires n < 16 && l < 16 && tmp == 16 * n + l
    ensures HighByte(Spread(tmp)) == 16 * n + Xor(l, n / 2) && Xor(l, n / 2) < 16
  {
    var t, low := n / 2, n % 2 * 128 + 8 * l;
    ShiftsOfNibbles(tmp, n, l, t, low);
    SpreadBytes(tmp, n, t, low);
    TopNibble(n, l, t);
    HighOfSum(Spread(tmp), Xor(tmp, t), Xor(low, n));
  }

  lemma {:induction false} ShiftsOfNibbles(tmp: byte, n: nat, l: nat, t: nat, low: nat)
    requires n < 16 && l < 16 && tmp == 16 * n + l && t == n / 2 && low == n % 2 * 128 + 8 * l
    ensures tmp / 16 == n && tmp * 8 == t * 256 + low && t < 8 && low < 256
  {
  }

  lemma {:induction false} HighOfSum(w: word, h: nat, l: nat)
    requires l < 256 && w == h * 256 + l
    ensures HighByte(w) == h
  {
  }

  lemma {:induction false} XorRightCancels(a: nat, b: nat, mask: nat)
    requires Xor(a, mask) == Xor(b, mask)
    ensures a == b
  {
    XorCancels(a, mask);
    XorCancels(b, mask);
  }

  lemma {:induction false} XorLeftCancels(a: nat, b: nat, mask: nat)
    requires Xor(mask, a) == Xor(mask, b)
    ensures a == b
  {
    XorCommutes(mask, a);
    XorCommutes(mask, b);
    XorRightCancels(a, b, mask);
  }

  lemma {:induction false} MixedInjective(a: byte, b: byte)
    requires Mixed(a) == Mixed(b)
    ensures a == b
  {
    var m, k, n, l := a / 16, a % 16, b / 16, b % 16;
    MixedNibbles(a, m, k);
    MixedNibbles(b, n, l);
    SameNibbles(Xor(m, k), k, Xor(n, l), l);
    XorRightCancels(m, n, k);
  }

  lemma {:induction false} SpreadHighInjective(a: byte, b: byte)
    requires HighByte(Spread(a)) == HighByte(Spread(b))
    ensures a == b
  {
    var m, k, n, l := a / 16, a % 16, b / 16, b % 16;
    SpreadHigh(a, m, k);
    SpreadHigh(b, n, l);
    SameNibbles(m, Xor(k, m / 2), n, Xor(l, n / 2));
    XorRightCancels(k, l, m / 2);
  }

  lemma {:induction false} SameNibbles(m: nat, k: nat, n: nat, l: nat)
    requires k < 16 && l < 16 && 16 * m + k == 16 * n + l
    ensures m == n && k == l
  {
  }

  /** The high byte of a result is the high byte of what its masked byte spread to. */
  lemma {:induction false} HighByteOfStep(data: byte, crc: word)
    ensures HighByte(Accumulate(data, crc)) == HighByte(Spread(Mixed(Masked(data, crc))))
  {
    var s := Spread(Mixed(Masked(data, crc)));
    assert Power(8) == 256;
    XorSplit(8, 256, 0, s / 256, crc / 256, s % 256, crc / 256, s);
    XorStaysByte(crc / 256, s % 256);
    XorZero(s / 256);
  }

  /** The high byte of a result reveals the masked byte. */
  lemma {:induction false} MaskedRevealed(x: byte, p: word, y: byte, q: word)
    requires HighByte(Accumulate(x, p)) == HighByte(Accumulate(y, q))
    ensures Masked(x, p) == Masked(y, q)
  {
    HighByteOfStep(x, p);
    HighByteOfStep(y, q);
    SpreadHighInjective(Mixed(Masked(x, p)), Mixed(Masked(y, q)));
    MixedInjective(Masked(x, p), Masked(y, q));
  }

  /** Steps that meet in one checksum had the same masked byte and the same high byte before. */
  lemma {:induction false} StepsMeet(x: byte, p: word, y: byte, q: word)
    requires Accumulate(x, p) == Accumulate(y, q)
    ensures Masked(x, p) == Masked(y, q) && HighByte(p) == HighByte(q)
  {
    MaskedRevealed(x, p, y, q);
    XorRightCancels(HighByte(p), HighByte(q), Spread(Mixed(Masked(x, p))));
  }

  /** For a fixed byte, different checksums stay different. */
  lemma {:induction false} AccumulateInjective(data: byte, a: word, b: word)
    requires Accumulate(data, a) == Accumulate(data, b)
    ensures a == b
  {
    StepsMeet(data, a, data, b);
    XorLeftCancels(LowByte(a), LowByte(b), data);
  }

  /** For a fixed checksum, different bytes give different high bytes, hence different results. */
  lemma {:induction false} ByteDetected(crc: word, a: byte, b: byte)
    requires HighByte(Accumulate(a, crc)) == HighByte(Accumulate(b, crc))
    ensures a == b
  {
    MaskedRevealed(a, crc, b, crc);
    XorRightCancels(a, b, LowByte(crc));
  }

  /** Two different pairs of adjacent bytes never lead from one checksum to one checksum. */
  lemma {:induction false} PairDetected(crc: word, a0: byte, a1: byte, b0: byte, b1: byte)
    requires Accumulate(a1, Accumulate(a0, crc)) == Accumulate(b1, Accumulate(b0, crc))
    ensures a0 == b0 && a1 == b1
  {
    StepsMeet(a1, Accumulate(a0, crc), b1, Accumulate(b0, crc));
    ByteDetected(crc, a0, b0);
    ByteDetected(Accumulate(a0, crc), a1, b1);
  }
}
