/** Timing constants, tolerance windows and data words of the remote control protocols. */
module IrProtocol {
  import opened IrSignal

  // ----- Pulse widths in microseconds

  const NEC_HDR_MARK := 9000
  const NEC_HDR_SPACE := 4500
  const NEC_BIT_MARK := 560
  const NEC_ONE_SPACE := 1600
  const NEC_ZERO_SPACE := 560
  const NEC_RPT_SPACE := 2250

  const SONY_HDR_MARK := 2400
  const SONY_HDR_SPACE := 600
  const SONY_ONE_MARK := 1200
  const SONY_ZERO_MARK := 600
  const SONY_DOUBLE_SPACE_USECS := 500

  const SANYO_HDR_MARK := 3500
  const SANYO_HDR_SPACE := 950
  const SANYO_ONE_MARK := 2400
  const SANYO_ZERO_MARK := 700
  const SANYO_DOUBLE_SPACE_USECS := 800

  const MITSUBISHI_HDR_SPACE := 350
  const MITSUBISHI_ONE_MARK := 1950
  const MITSUBISHI_ZERO_MARK := 750

  const RC5_T1 := 889

  const RC6_HDR_MARK := 2666
  const RC6_HDR_SPACE := 889
  const RC6_T1 := 444

  const PANASONIC_HDR_MARK := 3502
  const PANASONIC_HDR_SPACE := 1750
  const PANASONIC_BIT_MARK := 502
  const PANASONIC_ONE_SPACE := 1244
  const PANASONIC_ZERO_SPACE := 400

  const JVC_HDR_MARK := 8000
  const JVC_HDR_SPACE := 4000
  const JVC_BIT_MARK := 600
  const JVC_ONE_SPACE := 1600
  const JVC_ZERO_SPACE := 550

  // ----- Frame lengths

  const NEC_BITS := 32
  const SONY_BITS := 12
  const SANYO_BITS := 12
  const MITSUBISHI_BITS := 16
  const MIN_RC5_SAMPLES := 11
  const MIN_RC6_SAMPLES := 1
  const PANASONIC_BITS := 48
  const JVC_BITS := 16

  const RAWBUF := 100
  const GAP_TICKS := 100

  /** The value reported for a repeat code. */
  const REPEAT := 0xFFFF_FFFF

  // ----- Tolerance

  /** 75% of us microseconds, in ticks rounded down. */
  function TicksLow(us: nat): nat { us * 3 / 200 }

  /** 125% of us microseconds, in ticks rounded down, and one more. */
  function TicksHigh(us: nat): nat { us / 40 + 1 }

  predicate Match(measured: nat, desired: nat) {
    TicksLow(desired) <= measured <= TicksHigh(desired)
  }

  predicate MatchMark(measured: nat, desired: nat) {
    Match(measured, desired + MARK_EXCESS)
  }

  predicate MatchSpace(measured: nat, desired: nat)
    requires desired >= MARK_EXCESS
  {
    Match(measured, desired - MARK_EXCESS)
  }

  /**
   * Every pulse of 200 microseconds or more after the receiver's distortion is matched by its own window,
   * even when it is measured a whole tick short or long: the tolerance covers the sampling error.
   */
  lemma {:induction false} OwnWindow(w: nat, p: Pulse)
    requires Received(p) >= 200 && MeasuresPulse(w, p)
    ensures Match(w, Received(p))
  {
    var us := Received(p);
    assert us / 40 * 40 + us % 40 == us;
    assert us * 3 / 200 * 200 + us * 3 % 200 == us * 3;
  }

  // ----- Words

  const TOPBIT := 0x8000_0000
  const WORD := 0x1_0000_0000

  function Pow2(n: nat): (p: nat)
    ensures p > 0
  {
    if n == 0 then 1 else 2 * Pow2(n - 1)
  }

  /** The last n binary digits of data, most significant first. */
  function Digits(data: nat, n: nat): (bits: seq<bool>)
    ensures |bits| == n
  {
    if n == 0 then [] else Digits(data / 2, n - 1) + [data % 2 == 1]
  }

  function Bit(b: bool): nat { if b then 1 else 0 }

  /** The number that bits spell, most significant first. */
  function Value(bits: seq<bool>): nat {
    if bits == [] then 0 else 2 * Value(bits[..|bits| - 1]) + Bit(bits[|bits| - 1])
  }

  lemma {:induction false} ValueSnoc(bits: seq<bool>, b: bool)
    ensures Value(bits + [b]) == 2 * Value(bits) + Bit(b)
  {
    assert (bits + [b])[..|bits|] == bits;
  }

  lemma {:induction false} ValueBound(bits: seq<bool>)
    ensures Value(bits) < Pow2(|bits|)
    decreases |bits|
  {
    if bits != [] {
      ValueBound(bits[..|bits| - 1]);
    }
  }

  lemma {:induction false} Remainder(m: nat, t: nat, q: nat, r: nat)
    requires r < t && m == t * q + r
    ensures m % t == r && m / t == q
  {
    var q', r' := m / t, m % t;
    assert m == t * q' + r';
    var e: int := q' - q;
    var gap: int := t * e;
    assert gap == r - r';
    assert e >= 1 ==> gap >= t;
    assert e <= -1 ==> gap + t <= 0;
  }

  lemma {:induction false} HalfModulus(data: nat, p: nat)
    requires p > 0
    ensures data % (2 * p) == 2 * (data / 2 % p) + data % 2
    ensures data / (2 * p) == data / 2 / p
  {
    var half := data / 2;
    var q, r := half / p, half % p;
    assert half == p * q + r;
    var low: nat := 2 * r + data % 2;
    assert data == 2 * half + data % 2;
    assert data == (2 * p) * q + low;
    Remainder(data, 2 * p, q, low);
  }

  lemma {:induction false} DigitAt(data: nat, n: nat, i: nat)
    requires i < n
    ensures Digits(data, n)[i] == (data / Pow2(n - 1 - i) % 2 == 1)
    decreases n
  {
    if i < n - 1 {
      DigitAt(data / 2, n - 1, i);
      HalfModulus(data, Pow2(n - 2 - i));
    } else {
      assert data / Pow2(0) == data;
    }
  }

  /** Sending the last n digits of a number and reading them back gives the number modulo 2^n. */
  lemma {:induction false} DigitsValue(data: nat, n: nat)
    ensures Value(Digits(data, n)) == data % Pow2(n)
    decreases n
  {
    if n > 0 {
      DigitsValue(data / 2, n - 1);
      ValueSnoc(Digits(data / 2, n - 1), data % 2 == 1);
      HalfModulus(data, Pow2(n - 1));
    }
  }

  /** Doubling and adding commute with taking remainders. */
  lemma {:induction false} DoubledRemainder(y: nat, b: nat, m: nat)
    requires m > 0
    ensures (2 * (y % m) + b) % m == (2 * y + b) % m
  {
    var d: nat := y % m;
    var e: nat := 2 * d + b;
    var q, q', r: nat := y / m, e / m, e % m;
    assert y == m * q + d;
    assert e == m * q' + r;
    Distribute(m, 2 * q, q');
    Associate(m, q, 2);
    Remainder(2 * y + b, m, 2 * q + q', r);
  }

  /** What reading appends to the value of the bits read so far, in a register of m values. */
  lemma {:induction false} ReadBit(bits: seq<bool>, b: bool, m: nat)
    requires m > 0
    ensures (2 * (Value(bits) % m) + Bit(b)) % m == Value(bits + [b]) % m
  {
    ValueSnoc(bits, b);
    DoubledRemainder(Value(bits), Bit(b), m);
  }

  // ----- The shift register of the senders

  /** A register that holds numbers below 2 * top, after n left shifts by one. */
  function Register(d: nat, n: nat, top: nat): nat
    requires top > 0
  {
    if n == 0 then d else 2 * Register(d, n - 1, top) % (2 * top)
  }

  lemma {:induction false} ProductStep(d: nat, p: nat, m: nat)
    requires m > 0
    ensures 2 * (d * p % m) % m == d * (2 * p) % m
  {
    DoubledRemainder(d * p, 0, m);
    assert d * (2 * p) == 2 * (d * p);
  }

  lemma {:induction false} RegisterIsProduct(d: nat, n: nat, top: nat, m: nat)
    requires d < m == 2 * top
    ensures Register(d, n, top) == d * Pow2(n) % m
    decreases n
  {
    if n > 0 {
      RegisterIsProduct(d, n - 1, top, m);
      ProductStep(d, Pow2(n - 1), m);
    } else {
      Remainder(d, m, 0, d);
    }
  }

  lemma {:induction false} SplitProduct(x: nat, p: nat, n: nat, b: nat, c: nat, r: nat)
    requires x == n * (2 * b + c) + r
    ensures x * p == 2 * (p * n) * b + (p * n * c + p * r)
  {
    assert x * p == n * (2 * b + c) * p + r * p;
    assert n * (2 * b + c) == 2 * (n * b) + n * c;
    assert (2 * (n * b) + n * c) * p == 2 * (n * b) * p + n * c * p;
    assert 2 * (n * b) * p == 2 * (p * n) * b;
    assert n * c * p == p * n * c;
  }

  /** The top bit of a register holding x * p is the digit of x that p brings there. */
  lemma {:induction false} TopBitIsDigit(x: nat, p: nat, n: nat)
    requires p > 0 && n > 0
    ensures x * p % (2 * (p * n)) >= p * n <==> x / n % 2 == 1
  {
    var a, r := x / n, x % n;
    var b, c := a / 2, a % 2;
    SplitProduct(x, p, n, b, c, r);
    var low: nat := p * r;
    assert low < p * n;
    assert c == 0 || c == 1;
    Remainder(x * p, 2 * (p * n), b, p * n * c + low);
  }

  /**
   * The senders' loop (test the top bit, then shift left) meets the last n digits of x from the first to the last
   * when s shifts align them with the top of the register.
   */
  lemma {:induction false} NextBit(x: nat, s: nat, i: nat, n: nat, top: nat)
    requires i < n && x < 2 * top && Pow2(s + n) == 2 * top
    ensures Register(x, s + i, top) >= top <==> Digits(x, n)[i]
  {
    RegisterIsProduct(x, s + i, top, 2 * top);
    DigitAt(x, n, i);
    var p, w := Pow2(s + i), Pow2(n - 1 - i);
    Pow2Plus(s + i, n - 1 - i);
    assert top == p * w;
    TopBitIsDigit(x, p, w);
  }

  lemma {:induction false} Pow2Plus(m: nat, n: nat)
    ensures Pow2(m + n) == Pow2(m) * Pow2(n)
    decreases m
  {
    if m > 0 {
      Pow2Plus(m - 1, n);
      Associate(2, Pow2(m - 1), Pow2(n));
    }
  }

  lemma {:induction false} Associate(a: nat, b: nat, c: nat)
    ensures a * (b * c) == a * b * c
  {
  }

  lemma {:induction false} Distribute(a: nat, b: nat, c: nat)
    ensures a * (b + c) == a * b + a * c
  {
  }

  lemma {:induction false} Multiple(a: nat, m: nat, n: nat)
    requires m > 0
    ensures a * (m * n) % m == 0
  {
    assert a * (m * n) == m * (a * n);
    Remainder(a * (m * n), m, a * n, 0);
  }

  lemma {:induction false} Pow2Word()
    ensures Pow2(16) == 0x1_0000 && Pow2(32) == WORD
  {
    assert Pow2(8) == 0x100;
    Pow2Plus(8, 8);
    Pow2Plus(16, 16);
  }
}
