// 128-bit products and quotients from 64-bit words.
module WideInt {
  import opened Basics
  import Numerals

  datatype Wide = Wide(hi: nat, lo: nat)
  {
    function Value(): nat {
      hi * WORD + lo
    }
  }

  /** mul128 in 64-bit arithmetic: four products of halves and their carries. */
  function Mul128(x: nat, y: nat): Wide {
    var a, b, c, d := x / WORD32, x % WORD32, y / WORD32, y % WORD32;
    Carry(a * c, a * d, b * c, b * d)
  }

  function Carry(ac: nat, ad: nat, bc: nat, bd: nat): Wide {
    var adbc := (ad + bc) % WORD;
    var adbcCarry := if adbc < ad then 1 else 0;
    var lo := (bd + adbc * WORD32 % WORD) % WORD;
    var loCarry := if lo < bd then 1 else 0;
    Wide((ac + adbc / WORD32 + adbcCarry * WORD32 + loCarry) % WORD, lo)
  }

  lemma CarryExact(ac: nat, ad: nat, bc: nat, bd: nat)
    requires ac <= (WORD32 - 1) * (WORD32 - 1) && ad <= (WORD32 - 1) * (WORD32 - 1)
    requires bc <= (WORD32 - 1) * (WORD32 - 1) && bd <= (WORD32 - 1) * (WORD32 - 1)
    requires ac * WORD + (ad + bc) * WORD32 + bd < WORD * WORD
    ensures var p := Carry(ac, ad, bc, bd);
            p.Value() == ac * WORD + (ad + bc) * WORD32 + bd && p.hi < WORD && p.lo < WORD
  {
    var adbc := (ad + bc) % WORD;
    var carry := if adbc < ad then 1 else 0;
    CarryOne(ad, bc);
    HalfShift(adbc);
    var low := adbc % WORD32 * WORD32;
    var lo := (bd + low) % WORD;
    var loCarry := if lo < bd then 1 else 0;
    CarryOne(bd, low);
    var hi := ac + adbc / WORD32 + carry * WORD32 + loCarry;
    assert hi * WORD + lo == ac * WORD + (ad + bc) * WORD32 + bd;
    assert hi < WORD;
  }

  lemma CarryOne(a: nat, b: nat)
    requires a < WORD && b < WORD
    ensures var s := (a + b) % WORD; a + b == s + (if s < a then WORD else 0)
  {
  }

  lemma HalfShift(x: nat)
    requires x < WORD
    ensures x * WORD32 % WORD == x % WORD32 * WORD32 && x * WORD32 == x / WORD32 * WORD + x % WORD32 * WORD32
  {
  }

  lemma MulBound(a: nat, b: nat, m: nat, n: nat)
    requires a <= m && b <= n
    ensures a * b <= m * n
  {
    assert a * b <= m * b;
    assert m * b <= m * n;
  }

  lemma Split(a: nat, b: nat, c: nat, d: nat)
    ensures (a * WORD32 + b) * (c * WORD32 + d) == a * c * WORD + (a * d + b * c) * WORD32 + b * d
  {
  }

  lemma Mul128Exact(x: nat, y: nat)
    requires x < WORD && y < WORD
    ensures var p := Mul128(x, y); p.Value() == x * y && p.hi < WORD && p.lo < WORD
  {
    var a, b, c, d := x / WORD32, x % WORD32, y / WORD32, y % WORD32;
    Split(a, b, c, d);
    MulBound(a, c, WORD32 - 1, WORD32 - 1);
    MulBound(a, d, WORD32 - 1, WORD32 - 1);
    MulBound(b, c, WORD32 - 1, WORD32 - 1);
    MulBound(b, d, WORD32 - 1, WORD32 - 1);
    MulBound(x, y, WORD - 1, WORD - 1);
    CarryExact(a * c, a * d, b * c, b * d);
  }

  // ----- division by 32 bits -----

  /** div_with_reminder: one half-word, and the remainder so far. */
  method DivWithReminder(dividend: nat, divisor: nat, remainder: nat) returns (quotient: nat, rest: nat)
    requires dividend < WORD32 && 0 < divisor < WORD32 && remainder < divisor
    ensures remainder * WORD32 + dividend == quotient * divisor + rest && rest < divisor && quotient < WORD32
    ensures remainder == 0 ==> quotient <= dividend
  {
    var x := remainder * WORD32 + dividend;
    quotient, rest := x / divisor, x % divisor;
    DivModIs(x, divisor);
    if quotient >= WORD32 {
      MulBound(WORD32, divisor, quotient, divisor);
      assert false;
    }
    if remainder == 0 && quotient > dividend {
      MulBound(quotient, 1, quotient, divisor);
      assert false;
    }
  }

  lemma DivModIs(x: nat, d: nat)
    requires d > 0
    ensures x == x / d * d + x % d && x % d < d
  {
  }

  /** div128_32: long division with base 2 to the 32. */
  method Div128By32(dividend: Wide, divisor: nat) returns (quotient: Wide, remainder: nat)
    requires dividend.hi < WORD && dividend.lo < WORD && 0 < divisor < WORD32
    ensures quotient.Value() == dividend.Value() / divisor && remainder == dividend.Value() % divisor
    ensures quotient.hi < WORD && quotient.lo < WORD
  {
    var q3, q2, q1, q0;
    ghost var r3, r2, r1;
    q3, remainder := DivWithReminder(dividend.hi / WORD32, divisor, 0);
    r3 := remainder;
    q2, remainder := DivWithReminder(dividend.hi % WORD32, divisor, remainder);
    r2 := remainder;
    q1, remainder := DivWithReminder(dividend.lo / WORD32, divisor, remainder);
    r1 := remainder;
    q0, remainder := DivWithReminder(dividend.lo % WORD32, divisor, remainder);
    quotient := Wide(q3 * WORD32 + q2, q1 * WORD32 + q0);
    LongDivision(dividend, divisor, q3, q2, q1, q0, r3, r2, r1, remainder);
  }

  lemma LongDivision(n: Wide, d: nat, q3: nat, q2: nat, q1: nat, q0: nat, r3: nat, r2: nat, r1: nat, r0: nat)
    requires 0 < d && r0 < d
    requires n.hi / WORD32 == q3 * d + r3 && r3 * WORD32 + n.hi % WORD32 == q2 * d + r2
    requires r2 * WORD32 + n.lo / WORD32 == q1 * d + r1 && r1 * WORD32 + n.lo % WORD32 == q0 * d + r0
    ensures var q := (q3 * WORD32 + q2) * WORD + (q1 * WORD32 + q0); q == n.Value() / d && r0 == n.Value() % d
  {
    var q := (q3 * WORD32 + q2) * WORD + (q1 * WORD32 + q0);
    var a3, a2, a1, a0 := q3 * d, q2 * d, q1 * d, q0 * d;
    assert n.Value() == (a3 * WORD32 + a2) * WORD + (a1 * WORD32 + a0) + r0;
    Spread(q3, q2, q1, q0, d);
    QuotientIs(n.Value(), d, q, r0);
  }

  lemma Spread(q3: nat, q2: nat, q1: nat, q0: nat, d: nat)
    ensures ((q3 * WORD32 + q2) * WORD + (q1 * WORD32 + q0)) * d == (q3 * d * WORD32 + q2 * d) * WORD + (q1 * d * WORD32 + q0 * d)
  {
  }

  lemma QuotientIs(n: nat, d: nat, q: nat, r: nat)
    requires d > 0 && n == q * d + r && r < d
    ensures n / d == q && n % d == r
  {
    Numerals.DivMod(q, d, r);
  }
}
