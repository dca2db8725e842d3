/** The bird's trajectory: a parabola sampled once per frame and restarted by
    every boost (driver-comentado-pt-br.c, `flappy` and `get_flappy_position`). */
module Flight {
  import opened Numeric
  import opened Config

  /** Row at the last boost, and frames elapsed since that boost. */
  datatype Bird = Bird(h0: int, t: nat)

  /** The exact value of `h0 + V0*t + 0.5*GRAV*t*t`, before conversion to int. */
  function Height(b: Bird): real
  {
    var t := b.t as real;
    b.h0 as real + V0 * t + 0.5 * Grav * t * t
  }

  /** The numerator of the height over the common denominator 40. */
  function Numerator(b: Bird): int
  {
    40 * b.h0 + b.t * b.t - 20 * b.t
  }

  /** `get_flappy_position`, in integer arithmetic: with Grav = 1/20 and
      V0 = -1/2 the height is `(40 h0 + t^2 - 20 t) / 40`, truncated. A boost
      lifts the bird at most three rows, and it is back at its boost row by
      t = 20. */
  function Position(b: Bird): (row: int)
    ensures b.t == 0 ==> row == b.h0
    ensures b.t <= 20 ==> b.h0 - 3 <= row <= b.h0
    ensures b.t == 20 ==> row == b.h0
  {
    ApexBounds(b);
    TruncDiv(Numerator(b), 40)
  }

  lemma ApexBounds(b: Bird)
    ensures b.t == 0 || b.t == 20 ==> Numerator(b) == 40 * b.h0
    ensures b.t <= 20 ==> 40 * b.h0 - 100 <= Numerator(b) <= 40 * b.h0
  {
    assert b.t * b.t - 20 * b.t == (b.t - 10) * (b.t - 10) - 100;
    if b.t <= 20 {
      assert b.t * (b.t - 20) <= 0;
    }
  }

  /** The C expression evaluated exactly and truncated toward zero, as the
      assignment to `int` does, is the integer row. */
  lemma PositionIsTruncatedHeight(b: Bird)
    ensures TruncReal(Height(b)) == Position(b)
  {
  }

  /** The KEY_UP transition: restart the parabola from the current row. */
  function Boost(b: Bird): (r: Bird)
    ensures r.t == 0
    ensures Position(r) == Position(b)
  {
    Bird(Position(b), 0)
  }

  /** Any other key, or none: one more frame along the same parabola. The
      row holds or rises up to the apex and holds or falls after it. */
  function Fall(b: Bird): (r: Bird)
    ensures r.h0 == b.h0 && r.t == b.t + 1
    ensures b.t < 10 ==> Position(r) <= Position(b)
    ensures b.t >= 10 ==> Position(b) <= Position(r)
  {
    if b.t < 10 then
      RisesUntilApex(b.h0, b.t, b.t + 1);
      Bird(b.h0, b.t + 1)
    else
      FallsAfterApex(b.h0, b.t, b.t + 1);
      Bird(b.h0, b.t + 1)
  }

  /** The test `GRAV * t + V0 > 0` that selects the non-flapping pose. */
  predicate Descending(b: Bird)
  {
    Grav * b.t as real + V0 > 0.0
  }

  /** The velocity test turns positive exactly after the apex at t = 10. */
  lemma DescendingIffPastApex(b: Bird)
    ensures Descending(b) <==> b.t > 10
  {
  }

  /** Before the apex the row never increases (the bird rises or holds). */
  lemma {:induction false} RisesUntilApex(h0: int, t1: nat, t2: nat)
    requires t1 <= t2 <= 10
    ensures Position(Bird(h0, t2)) <= Position(Bird(h0, t1))
  {
    var b1, b2 := Bird(h0, t1), Bird(h0, t2);
    assert Numerator(b1) - Numerator(b2) == (t2 - t1) * (20 - t1 - t2);
    assert (t2 - t1) * (20 - t1 - t2) >= 0;
    TruncDivMonotone(Numerator(b2), Numerator(b1), 40);
  }

  /** After the apex the row never decreases (the bird falls or holds). */
  lemma {:induction false} FallsAfterApex(h0: int, t1: nat, t2: nat)
    requires 10 <= t1 <= t2
    ensures Position(Bird(h0, t1)) <= Position(Bird(h0, t2))
  {
    var b1, b2 := Bird(h0, t1), Bird(h0, t2);
    assert Numerator(b2) - Numerator(b1) == (t2 - t1) * (t1 + t2 - 20);
    assert (t2 - t1) * (t1 + t2 - 20) >= 0;
    TruncDivMonotone(Numerator(b1), Numerator(b2), 40);
  }
}
