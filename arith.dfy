// Powers and the division facts the byte encodings rest on.
module Arith {

  function Pow(b: nat, e: nat): (r: nat)
    ensures b > 0 ==> r > 0
  {
    if e == 0 then 1 else b * Pow(b, e - 1)
  }

  lemma PowAdd(b: nat, e1: nat, e2: nat)
    ensures Pow(b, e1 + e2) == Pow(b, e1) * Pow(b, e2)
    decreases e1
  {
    if e1 > 0 {
      PowAdd(b, e1 - 1, e2);
      calc {
        Pow(b, e1 + e2);
        b * Pow(b, e1 - 1 + e2);
        b * (Pow(b, e1 - 1) * Pow(b, e2));
        (b * Pow(b, e1 - 1)) * Pow(b, e2);
      }
    }
  }

  lemma PowMonotone(b: nat, e1: nat, e2: nat)
    requires b > 0 && e1 <= e2
    ensures Pow(b, e1) <= Pow(b, e2)
    decreases e2
  {
    if e1 < e2 {
      PowMonotone(b, e1, e2 - 1);
      MulGrows(Pow(b, e2 - 1), b);
    }
  }

  lemma MulGrows(x: nat, k: nat)
    requires k >= 1
    ensures x <= k * x
  {
  }

  lemma MulPositive(d: int, k: int)
    requires d > 0 && k >= 1
    ensures d * k >= d
  {
  }

  /** Euclidean division is determined by the quotient/remainder equation. */
  lemma DivUnique(x: int, d: int, q: int, r: int)
    requires d > 0 && 0 <= r < d && x == d * q + r
    ensures x / d == q && x % d == r
  {
    var q', r' := x / d, x % d;
    assert d * q + r == d * q' + r';
    if q > q' {
      MulPositive(d, q - q');
    } else if q < q' {
      MulPositive(d, q' - q);
    }
  }

  lemma DivDiv(x: nat, a: nat, b: nat)
    requires a > 0 && b > 0
    ensures x / a / b == x / (a * b)
  {
    var q, r := x / a, x % a;
    var q2, r2 := q / b, q % b;
    assert x == a * q + r;
    assert q == b * q2 + r2;
    assert a * r2 <= a * (b - 1) by { MulLe(a, r2, b - 1); }
    calc {
      x;
      a * (b * q2 + r2) + r;
      (a * b) * q2 + (a * r2 + r);
    }
    DivUnique(x, a * b, q2, a * r2 + r);
  }

  lemma MulLe(a: nat, x: nat, y: nat)
    requires x <= y
    ensures a * x <= a * y
  {
  }

  /** Adding a multiple of the divisor shifts the quotient and keeps the remainder. */
  lemma DivModAddMultiple(d: nat, m: nat, y: nat)
    requires d > 0
    ensures (d * m + y) / d == m + y / d
    ensures (d * m + y) % d == y % d
  {
    DivUnique(d * m + y, d, m + y / d, y % d);
  }

  lemma MulAssoc(a: int, b: int, c: int)
    ensures (a * b) * c == a * (b * c)
  {
  }

  lemma SmallDivIsZero(r: nat, d: nat)
    requires d > 0 && r < d
    ensures r / d == 0
  {
    DivUnique(r, d, 0, r);
  }

  /** Dividing `x % (d * e)` by d gives the digit of `x / d` below e. */
  lemma ModThenDiv(x: nat, d: nat, e: nat)
    requires d > 0 && e > 0
    ensures x % (d * e) / d == x / d % e
  {
    var q, r := x / (d * e), x % (d * e);
    assert x == (d * e) * q + r;
    MulAssoc(d, e, q);
    assert x == d * (e * q) + r;
    DivModAddMultiple(d, e * q, r);
    assert x / d == e * q + r / d;
    assert r / d < e by {
      DivDiv(r, d, e);
      SmallDivIsZero(r, d * e);
      var t := r / d;
      assert t / e == 0;
      assert t == e * (t / e) + t % e;
    }
    DivModAddMultiple(e, q, r / d);
    DivUnique(r / d, e, 0, r / d);
  }

  /** Reducing modulo a multiple of a first does not change the remainder modulo a. */
  lemma ModOfMod(y: nat, a: nat, b: nat)
    requires a > 0 && b > 0
    ensures y % (a * b) % a == y % a
  {
    var q, r := y / (a * b), y % (a * b);
    assert y == (a * b) * q + r;
    MulAssoc(a, b, q);
    DivModAddMultiple(a, b * q, r);
  }

  lemma DivLe(x: nat, y: nat)
    requires y > 0
    ensures x / y <= x
  {
    DivUnique(x, y, x / y, x % y);
    if x / y > 0 {
      MulGrows(x / y, y);
      assert x / y <= y * (x / y);
    }
  }
}
