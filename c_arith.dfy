/**
 * The C integer semantics the firmware relies on, written out over Dafny's
 * unbounded integers: `/` truncating toward zero, unsigned 32-bit subtraction
 * with wrap-around, and the conversion of an `int` to `uint16_t`.
 */
module CArith {

  const U16_MOD: int := 0x1_0000
  const U32_MOD: int := 0x1_0000_0000

  /** uint16_t */
  type u16 = x: int | 0 <= x < 0x1_0000

  /** uint32_t (and the 32-bit `uint` of the target) */
  type u32 = x: int | 0 <= x < 0x1_0000_0000

  const INT32_MIN: int := -0x8000_0000
  const INT32_MAX: int := 0x7fff_ffff

  /** C's abs() on an int; the values it is applied to are far from INT_MIN. */
  function Abs(x: int): (r: nat)
    ensures r == x || r == -x
    ensures r >= x && r >= -x
  {
    if x < 0 then -x else x
  }

  /**
   * C99 integer division `a / b`: the quotient is truncated toward zero, so the
   * remainder `a - q * b` is smaller than the divisor in magnitude and never has
   * the opposite sign of the dividend (Dafny's own `/` is Euclidean instead).
   */
  function CDiv(a: int, b: int): (q: int)
    requires b != 0
    ensures Abs(a - q * b) < Abs(b)
    ensures a >= 0 ==> a - q * b >= 0
    ensures a <= 0 ==> a - q * b <= 0
  {
    var q0, r0 := a / b, a % b;
    assert a - q0 * b == r0;
    if a >= 0 || r0 == 0 then
      q0
    else if b > 0 then
      assert a - (q0 + 1) * b == r0 - b;
      q0 + 1
    else
      assert a - (q0 - 1) * b == r0 + b;
      q0 - 1
  }

  /** A multiple of b smaller than b in magnitude is zero. */
  lemma LemmaSmallMultiple(k: int, b: int)
    requires b != 0
    requires Abs(k * b) < Abs(b)
    ensures k == 0
  {
    if k != 0 {
      LemmaAbsMul(k, b);
      LemmaMulAtLeast(Abs(k), Abs(b));
    }
  }

  lemma LemmaAbsMul(k: int, b: int)
    ensures Abs(k * b) == Abs(k) * Abs(b)
  {
    if k < 0 && b < 0 {
      assert k * b == (-k) * (-b);
    } else if k < 0 {
      assert k * b == -((-k) * b);
      LemmaMulNonNeg(-k, b);
    } else if b < 0 {
      assert k * b == -(k * (-b));
      LemmaMulNonNeg(k, -b);
    } else {
      LemmaMulNonNeg(k, b);
    }
  }

  lemma LemmaMulAtLeast(x: nat, y: nat)
    requires x >= 1
    ensures x * y >= y
  {
    assert x * y == (x - 1) * y + y;
    LemmaMulNonNeg(x - 1, y);
  }

  lemma LemmaMulNonNeg(x: nat, y: nat)
    ensures x * y >= 0
  {
  }

  /**
   * The contract of CDiv determines the quotient: any q whose remainder is
   * below |b| and has the sign of the dividend is CDiv(a, b).
   */
  lemma CDivUnique(a: int, b: int, q: int)
    requires b != 0
    requires Abs(a - q * b) < Abs(b)
    requires a >= 0 ==> a - q * b >= 0
    requires a <= 0 ==> a - q * b <= 0
    ensures q == CDiv(a, b)
  {
    var p := CDiv(a, b);
    var r, s := a - q * b, a - p * b;
    assert Abs(r - s) < Abs(b);
    assert r - s == (p - q) * b;
    LemmaSmallMultiple(p - q, b);
  }

  /** Truncation is symmetric around zero: negating the dividend negates the quotient. */
  lemma CDivNegate(a: int, b: int)
    requires b != 0
    ensures CDiv(-a, b) == -CDiv(a, b)
  {
    var q := CDiv(a, b);
    assert -a - (-q) * b == -(a - q * b);
    CDivUnique(-a, b, -q);
  }

  /**
   * Where C and Dafny part ways: for a negative dividend that the divisor does
   * not divide, the truncated quotient is one above the Euclidean one.
   */
  lemma CDivOfNegative(a: int, b: int)
    requires a < 0 && b > 0 && a % b != 0
    ensures CDiv(a, b) == a / b + 1
  {
    var q := a / b + 1;
    assert a == (a / b) * b + a % b;
    assert a - q * b == a % b - b;
    CDivUnique(a, b, q);
  }

  /**
   * Unsigned 32-bit subtraction `a - b`: the difference d is the one uint32_t
   * that, added to b, gives a again modulo 2^32.
   */
  function U32Sub(a: u32, b: u32): (d: u32)
    ensures (b + d) % U32_MOD == a
    ensures b <= a ==> d == a - b
    ensures a < b ==> d == a - b + U32_MOD
  {
    (a - b) % U32_MOD
  }

  /** U32Sub is the only uint32_t d with (b + d) mod 2^32 == a. */
  lemma U32SubUnique(a: u32, b: u32, d: u32)
    requires (b + d) % U32_MOD == a
    ensures d == U32Sub(a, b)
  {
    if b + d >= U32_MOD {
      assert (b + d) % U32_MOD == b + d - U32_MOD;
    } else {
      assert (b + d) % U32_MOD == b + d;
    }
  }

  /**
   * Conversion of an int argument to a uint16_t parameter: the value is reduced
   * modulo 2^16 (C11 section 6.3.1.3, paragraph 2).
   */
  function ToU16(v: int): (r: u16)
    ensures (v - r) % U16_MOD == 0
    ensures 0 <= v < U16_MOD ==> r == v
    ensures -U16_MOD <= v < 0 ==> r == v + U16_MOD
  {
    v % U16_MOD
  }
}
