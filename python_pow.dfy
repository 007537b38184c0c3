/**
 * Python's three-argument `pow`, which the page calls through Pyodide. Only
 * its documented result is modelled: `pow(b, e, m)` with `e >= 0` and
 * `m != 0` equals `b ** e % m`, where `%` floors, so a non-zero result has
 * the sign of `m`.
 */
module PythonPow {

  /** b raised to the e-th power. */
  function Power(b: int, e: nat): int {
    if e == 0 then 1 else b * Power(b, e - 1)
  }

  /** Python's `a % m`: the remainder of floor division, 0 or of the sign of m. */
  function FloorMod(a: int, m: int): (r: int)
    requires m != 0
    ensures m > 0 ==> 0 <= r < m
    ensures m < 0 ==> m < r <= 0
    ensures (a - r) % m == 0
  {
    var q, k := a / m, a % m;
    assert a - k == q * m;
    assert a - (k + m) == (q - 1) * m;
    MultipleMod(q, m);
    MultipleMod(q - 1, m);
    if m < 0 && k != 0 then k + m else k
  }

  /** `pow(b, e, m)`: the representative of b to the e-th power modulo m that lies between 0 and m. */
  function Pow(b: int, e: int, m: int): (r: int)
    requires e >= 0 && m != 0
    ensures m > 0 ==> 0 <= r < m
    ensures m < 0 ==> m < r <= 0
    ensures (Power(b, e) - r) % m == 0
  {
    FloorMod(Power(b, e), m)
  }

  /** The range and the congruence in FloorMod's contract pin the result down. */
  lemma FloorModUnique(a: int, m: int, r: int)
    requires m != 0
    requires m > 0 ==> 0 <= r < m
    requires m < 0 ==> m < r <= 0
    requires (a - r) % m == 0
    ensures FloorMod(a, m) == r
  {
    var f := FloorMod(a, m);
    var q1, q2 := (a - r) / m, (a - f) / m;
    assert a - r == q1 * m;
    assert a - f == q2 * m;
    assert f - r == (q1 - q2) * m;
    if q1 - q2 >= 1 || q1 - q2 <= -1 {
      MultipleTooLarge(q1 - q2, m);
    }
  }

  /** A multiple of m leaves no remainder. */
  lemma MultipleMod(q: int, m: int)
    requires m != 0
    ensures (q * m) % m == 0
  {
    var x := q * m;
    var d, k := x / m, x % m;
    assert k == (q - d) * m;
    if q - d != 0 {
      MultipleTooLarge(q - d, m);
    }
  }

  lemma MultipleTooLarge(q: int, m: int)
    requires m != 0 && q != 0
    ensures q * m >= m || q * m <= -m
    ensures q * m >= -m || q * m <= m
  {
  }

  /** A zero exponent gives the representative of 1: 0 for a modulus of 1 or -1, 1 above, m + 1 below. */
  lemma PowZeroExponent(b: int, m: int)
    requires m != 0
    ensures Pow(b, 0, m) == if m == 1 || m == -1 then 0 else if m > 0 then 1 else m + 1
  {
    var r := if m == 1 || m == -1 then 0 else if m > 0 then 1 else m + 1;
    assert (1 - r) % m == 0 by {
      if m < -1 { assert 1 - r == -m; }
    }
    FloorModUnique(1, m, r);
  }

  /** Every power is 0 modulo 1 or -1. */
  lemma PowUnitModulus(b: int, e: int, m: int)
    requires e >= 0 && (m == 1 || m == -1)
    ensures Pow(b, e, m) == 0
  {
  }
}
