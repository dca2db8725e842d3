/** Integer and real helpers that reproduce the C conversions the game relies on:
    integer division rounds toward zero, and assigning a float to an int drops
    the fraction toward zero. Dafny's own `/` on `int` is Euclidean and `.Floor`
    rounds down, so neither can be used directly for negative operands. */
module Numeric {

  function Abs(x: int): int { if x < 0 then -x else x }

  function Min(a: int, b: int): int { if a <= b then a else b }

  function Max(a: int, b: int): int { if a >= b then a else b }

  /** C's `a / b` on ints: the quotient rounded toward zero. */
  function TruncDiv(a: int, b: int): (q: int)
    requires b != 0
    ensures Abs(a - q * b) < Abs(b)
    ensures a >= 0 ==> a - q * b >= 0
    ensures a <= 0 ==> a - q * b <= 0
  {
    var m := Abs(a) / Abs(b);
    QuotientSigns(a, b, m, Abs(a) % Abs(b));
    if (a < 0) == (b < 0) then m else -m
  }

  /** Splits `|a| == m * |b| + r` back into the signed operands. */
  lemma QuotientSigns(a: int, b: int, m: int, r: int)
    requires b != 0 && Abs(a) == m * Abs(b) + r && 0 <= r < Abs(b)
    ensures (a < 0) == (b < 0) ==> a - m * b == (if a < 0 then -r else r)
    ensures (a < 0) != (b < 0) ==> a - (-m) * b == (if a < 0 then -r else r)
  {
  }

  /** C's conversion of a floating value to an int: the fraction is dropped
      toward zero. */
  function TruncReal(x: real): (n: int)
    ensures x >= 0.0 ==> n as real <= x < n as real + 1.0
    ensures x < 0.0 ==> n as real - 1.0 < x <= n as real
  {
    if x >= 0.0 then x.Floor else -((-x).Floor)
  }

  lemma DivMonotone(x: int, y: int, d: int)
    requires 0 <= x <= y && d > 0
    ensures x / d <= y / d
  {
    var k := x / d - y / d;
    assert k * d == (x - x % d) - (y - y % d);
    assert k * d < d;
    ScaledBelowOne(k, d);
  }

  lemma ScaledBelowOne(k: int, d: int)
    requires d > 0 && k * d < d
    ensures k < 1
  {
  }

  lemma TruncDivMonotone(a: int, b: int, d: int)
    requires d > 0 && a <= b
    ensures TruncDiv(a, d) <= TruncDiv(b, d)
  {
    if 0 <= a {
      assert TruncDiv(a, d) == a / d && TruncDiv(b, d) == b / d;
      DivMonotone(a, b, d);
    } else if b < 0 {
      assert TruncDiv(a, d) == -((-a) / d) && TruncDiv(b, d) == -((-b) / d);
      DivMonotone(-b, -a, d);
    } else {
      assert TruncDiv(a, d) == -((-a) / d) && TruncDiv(b, d) == b / d;
    }
  }

  /** Euclidean remainders are unique. */
  lemma ModUnique(y: int, a: int, m: int, s: int)
    requires s > 0 && 0 <= m < s && y == a * s + m
    ensures y % s == m
  {
    var k := a - y / s;
    assert k * s == y % s - m;
    ScaledBelowOne(k, s);
    assert (-k) * s == -(k * s);
    ScaledBelowOne(-k, s);
  }

  /** Subtracting the modulus leaves the remainder unchanged. */
  lemma ModShift(x: int, s: int)
    requires s > 0
    ensures (x - s) % s == x % s
  {
    assert x - s == (x / s - 1) * s + x % s;
    ModUnique(x - s, x / s - 1, x % s, s);
  }

  /** A positive multiple of `s` is at least `s`. */
  lemma MultipleAtLeast(x: int, s: int)
    requires s > 0 && x > 0 && x % s == 0
    ensures x >= s
  {
  }
}
