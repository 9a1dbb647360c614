/** Bytes and words as numbers, and the exclusive-or of their binary digits. */
module Bits {

  type byte = x: int | 0 <= x < 0x100

  type word = x: int | 0 <= x < 0x1_0000

  function Xor(a: nat, b: nat): nat {
    if a == 0 then b
    else if b == 0 then a
    else 2 * Xor(a / 2, b / 2) + (a + b) % 2
  }

  lemma {:induction false} XorZero(a: nat)
    ensures Xor(a, 0) == a && Xor(0, a) == a
  {
  }

  lemma {:induction false} Halves(u: nat, x: nat)
    requires x < 2
    ensures (2 * u + x) / 2 == u && (2 * u + x) % 2 == x
  {
  }

  /** The digit-wise reading that every other law follows from. */
  lemma {:induction false} XorDigits(a: nat, b: nat)
    ensures Xor(a, b) % 2 == (a + b) % 2 && Xor(a, b) / 2 == Xor(a / 2, b / 2)
  {
    if a == 0 || b == 0 {
      XorZero(a);
      XorZero(b);
      XorZero(a / 2);
      XorZero(b / 2);
    } else {
      Halves(Xor(a / 2, b / 2), (a + b) % 2);
    }
  }

  lemma {:induction false} XorCommutes(a: nat, b: nat)
    ensures Xor(a, b) == Xor(b, a)
    decreases a
  {
    if a != 0 && b != 0 {
      XorCommutes(a / 2, b / 2);
    }
  }

  lemma {:induction false} XorAssociates(a: nat, b: nat, c: nat)
    ensures Xor(Xor(a, b), c) == Xor(a, Xor(b, c))
    decreases a
  {
    if a != 0 {
      XorAssociates(a / 2, b / 2, c / 2);
      var ab, bc := Xor(a, b), Xor(b, c);
      XorHalves(a, b, ab);
      XorHalves(b, c, bc);
      XorHalves(ab, c, Xor(ab, c));
      XorHalves(a, bc, Xor(a, bc));
      ParityAssociates(a, b, c, ab, bc);
      SameDigits(Xor(ab, c), Xor(a, bc));
    }
  }

  lemma {:induction false} XorHalves(a: nat, b: nat, r: nat)
    requires r == Xor(a, b)
    ensures r % 2 == (a + b) % 2 && r / 2 == Xor(a / 2, b / 2)
  {
    XorDigits(a, b);
  }

  lemma {:induction false} ParityAssociates(a: nat, b: nat, c: nat, ab: nat, bc: nat)
    requires ab % 2 == (a + b) % 2 && bc % 2 == (b + c) % 2
    ensures (ab + c) % 2 == (a + bc) % 2
  {
  }

  lemma {:induction false} SameDigits(m: nat, n: nat)
    requires m % 2 == n % 2 && m / 2 == n / 2
    ensures m == n
  {
  }

  lemma {:induction false} XorSelf(a: nat)
    ensures Xor(a, a) == 0
  {
    if a != 0 {
      XorSelf(a / 2);
    }
  }

  /** Masking twice with the same mask restores the original. */
  lemma {:induction false} XorCancels(a: nat, mask: nat)
    ensures Xor(Xor(a, mask), mask) == a
  {
    XorAssociates(a, mask, mask);
    XorSelf(mask);
  }

  lemma {:induction false} XorInterchange(a: nat, b: nat, c: nat, d: nat)
    ensures Xor(Xor(a, b), Xor(c, d)) == Xor(Xor(a, c), Xor(b, d))
  {
    calc {
      Xor(Xor(a, b), Xor(c, d));
      { XorAssociates(a, b, Xor(c, d)); XorAssociates(b, c, d); }
      Xor(a, Xor(Xor(b, c), d));
      { XorCommutes(b, c); XorAssociates(c, b, d); }
      Xor(a, Xor(c, Xor(b, d)));
      { XorAssociates(a, c, Xor(b, d)); }
      Xor(Xor(a, c), Xor(b, d));
    }
  }

  lemma {:induction false} XorBelow(a: nat, b: nat, bits: nat)
    requires a < Power(bits) && b < Power(bits)
    ensures Xor(a, b) < Power(bits)
  {
    if a != 0 && b != 0 {
      XorBelow(a / 2, b / 2, bits - 1);
    }
  }

  function Power(n: nat): nat {
    if n == 0 then 1 else 2 * Power(n - 1)
  }

  lemma {:induction false} XorStaysByte(a: nat, b: nat)
    requires a < 0x100 && b < 0x100
    ensures Xor(a, b) < 0x100
  {
    assert Power(8) == 0x100;
    XorBelow(a, b, 8);
  }

  lemma {:induction false} XorStaysWord(a: nat, b: nat)
    requires a < 0x1_0000 && b < 0x1_0000
    ensures Xor(a, b) < 0x1_0000
  {
    assert Power(8) == 0x100 && Power(12) == 0x1000 && Power(16) == 0x1_0000;
    XorBelow(a, b, 16);
  }

  function XorByte(a: byte, b: byte): byte {
    XorStaysByte(a, b);
    Xor(a, b)
  }

  function XorWord(a: word, b: word): word {
    XorStaysWord(a, b);
    Xor(a, b)
  }

  // ----- Shifts

  lemma {:induction false} ParityOfSum(a: nat, b: nat, u: nat, v: nat, x: nat, y: nat)
    requires a == 2 * u + x && b == 2 * v + y && x < 2 && y < 2
    ensures (a + b) % 2 == if x == y then 0 else 1
  {
    if x == y == 1 {
      Halves(u + v + 1, 0);
    } else {
      Halves(u + v, x + y);
    }
  }

  /** Appending a digit to each number appends the combined digit. */
  lemma {:induction false} XorAppend(a: nat, b: nat, u: nat, v: nat, x: nat, y: nat)
    requires a == 2 * u + x && b == 2 * v + y && x < 2 && y < 2
    ensures Xor(a, b) == 2 * Xor(u, v) + if x == y then 0 else 1
  {
    Halves(u, x);
    Halves(v, y);
    ParityOfSum(a, b, u, v, x, y);
    XorZero(u);
    XorZero(v);
  }

  lemma {:induction false} Regroup(a: nat, h: nat, x: nat)
    ensures a * (2 * h) + x == 2 * (a * h + x / 2) + x % 2
  {
    assert a * (2 * h) == 2 * (a * h);
  }

  lemma {:induction false} Recombine(r: nat, h: nat, s: nat, d: nat, uv: nat, xy: nat, ab: nat)
    requires ab == 2 * uv + d && uv == r * h + s && xy == 2 * s + d
    ensures ab == r * (2 * h) + xy
  {
    assert r * (2 * h) == 2 * (r * h);
  }

  lemma {:induction false} XorSplitStep(h: nat, a: nat, b: nat, x: nat, y: nat, m: nat, n: nat, u: nat, v: nat)
    requires m == a * (2 * h) + x && n == b * (2 * h) + y
    requires u == a * h + x / 2 && v == b * h + y / 2
    requires Xor(u, v) == Xor(a, b) * h + Xor(x / 2, y / 2)
    ensures Xor(m, n) == Xor(a, b) * (2 * h) + Xor(x, y)
  {
    Regroup(a, h, x);
    Regroup(b, h, y);
    XorAppend(m, n, u, v, x % 2, y % 2);
    XorAppend(x, y, x / 2, y / 2, x % 2, y % 2);
    Recombine(Xor(a, b), h, Xor(x / 2, y / 2), if x % 2 == y % 2 then 0 else 1, Xor(u, v), Xor(x, y), Xor(m, n));
  }

  /** High and low digits are combined separately. */
  lemma {:induction false} XorSplit(k: nat, p: nat, a: nat, b: nat, x: nat, y: nat, m: nat, n: nat)
    requires p == Power(k) && x < p && y < p && m == a * p + x && n == b * p + y
    ensures Xor(m, n) == Xor(a, b) * p + Xor(x, y)
    decreases k
  {
    if k == 0 {
      assert m == a && n == b && Xor(x, y) == 0;
    } else {
      var h := Power(k - 1);
      var u, v := a * h + x / 2, b * h + y / 2;
      XorSplit(k - 1, h, a, b, x / 2, y / 2, u, v);
      XorSplitStep(h, a, b, x, y, m, n, u, v);
    }
  }
}
