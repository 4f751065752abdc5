/**
 * What the two background components take from the platform and this model
 * takes as parameters instead: Math.random() and Math.sqrt(), with the facts
 * about squares and signs that both components' pointer pulls rely on.
 */
module Draws {
  /** A stream of Math.random() results: draw k is the k-th call, each in [0, 1). */
  ghost predicate UnitDraws(draws: nat -> real) {
    forall k: nat :: 0.0 <= draws(k) < 1.0
  }

  /** Math.sqrt on non-negative arguments, taken exactly. */
  ghost predicate IsSqrt(sqrt: real -> real) {
    forall v: real :: 0.0 <= v ==> 0.0 <= sqrt(v) && sqrt(v) * sqrt(v) == v
  }

  /** Squaring is strictly monotone on non-negative reals. */
  lemma SquareBelow(a: real, b: real)
    requires 0.0 <= a < b
    ensures a * a < b * b
  {
    var ab := a * b;
    assert a * a <= ab;
    assert ab < b * b;
  }

  lemma SquareAtLeast(a: real, b: real)
    requires 0.0 <= b <= a
    ensures b * b <= a * a
  {
    var ab := a * b;
    assert b * b <= ab;
    assert ab <= a * a;
  }

  /** Dividing by a positive distance and scaling by a positive factor keeps the sign. */
  lemma Toward(d: real, distance: real, scale: real)
    requires distance > 0.0 && scale > 0.0
    ensures d / distance * scale > 0.0 <==> d > 0.0
    ensures d / distance * scale < 0.0 <==> d < 0.0
  {
    var c := d / distance;
    assert c * distance == d;
    if d > 0.0 {
      assert c > 0.0;
    } else if d < 0.0 {
      assert c < 0.0;
    } else {
      assert c == 0.0;
    }
  }

  /**
   * The distance sqrt(dx * dx + dy * dy) is 0 when both offsets are 0, and
   * positive otherwise.
   */
  lemma DistanceFacts(sqrt: real -> real, dx: real, dy: real)
    requires IsSqrt(sqrt)
    ensures dx == 0.0 && dy == 0.0 ==> dx * dx + dy * dy == 0.0 && sqrt(dx * dx + dy * dy) == 0.0
    ensures dx != 0.0 || dy != 0.0 ==> dx * dx + dy * dy > 0.0 && sqrt(dx * dx + dy * dy) > 0.0
  {
    if dx == 0.0 && dy == 0.0 {
      assert dx * dx + dy * dy == 0.0;
      SqrtOfZero(sqrt);
    } else {
      var v := dx * dx + dy * dy;
      SquareSumPositive(dx, dy, v);
      SqrtPositive(sqrt, v);
    }
  }

  lemma SqrtOfZero(sqrt: real -> real)
    requires IsSqrt(sqrt)
    ensures sqrt(0.0) == 0.0
  {
    var s := sqrt(0.0);
    assert s * s == 0.0;
    if s > 0.0 {
      SquareBelow(0.0, s);
    }
  }

  lemma SqrtPositive(sqrt: real -> real, v: real)
    requires IsSqrt(sqrt) && v > 0.0
    ensures sqrt(v) > 0.0
  {
    var s := sqrt(v);
    assert s * s == v;
  }

  lemma SquareSumPositive(dx: real, dy: real, v: real)
    requires dx != 0.0 || dy != 0.0
    requires v == dx * dx + dy * dy
    ensures v > 0.0
  {
    var a := if dx < 0.0 then -dx else dx;
    var b := if dy < 0.0 then -dy else dy;
    assert a * a == dx * dx;
    assert b * b == dy * dy;
    if a > 0.0 {
      SquareBelow(0.0, a);
    }
    if b > 0.0 {
      SquareBelow(0.0, b);
    }
    var p, q := a * a, b * b;
    assert p >= 0.0 && q >= 0.0;
  }
}
