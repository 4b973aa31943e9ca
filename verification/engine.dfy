/**
 * The engine services and Unity maths the four controllers use, written out
 * so that the controllers can be modelled without the host engine. Frame
 * time, random draws and scene queries become parameters of the controllers'
 * operations; the few Mathf helpers become total functions on reals (float
 * rounding is not modelled).
 */
module Engine {

  datatype Option<T> = None | Some(value: T)

  function Min(a: real, b: real): real { if a <= b then a else b }

  function Max(a: real, b: real): real { if a <= b then b else a }

  /** Unity's Vector2. Only directions are kept; positions are left out. */
  datatype Vec2 = Vec2(x: real, y: real)

  function Neg(v: Vec2): Vec2 { Vec2(-v.x, -v.y) }

  function SqrMagnitude(v: Vec2): real { v.x * v.x + v.y * v.y }

  /** Vector2.right, the fallback of PickNewDirection. */
  const RIGHT: Vec2 := Vec2(1.0, 0.0)

  /** A drawn direction whose squared length is below this is replaced by RIGHT. */
  const DEGENERATE_SQR_MAGNITUDE: real := 0.001

  /**
   * The direction PickNewDirection keeps for a drawn direction `d`
   * (Random.insideUnitCircle.normalized): `d` itself unless it is
   * (nearly) the zero vector, in which case RIGHT.
   */
  function UsableDirection(d: Vec2): (r: Vec2)
    ensures SqrMagnitude(r) >= DEGENERATE_SQR_MAGNITUDE
    ensures r != Vec2(0.0, 0.0)
    ensures SqrMagnitude(d) >= DEGENERATE_SQR_MAGNITUDE ==> r == d
    ensures SqrMagnitude(d) < DEGENERATE_SQR_MAGNITUDE ==> r == RIGHT
  {
    if SqrMagnitude(d) < DEGENERATE_SQR_MAGNITUDE then RIGHT else d
  }

  /** Reversing a direction on a wall keeps its length. */
  lemma NegKeepsSqrMagnitude(v: Vec2)
    ensures SqrMagnitude(Neg(v)) == SqrMagnitude(v)
  {
    assert (-v.x) * (-v.x) == v.x * v.x;
    assert (-v.y) * (-v.y) == v.y * v.y;
  }

  /** Mathf.Clamp01. */
  function Clamp01(t: real): (r: real)
    ensures 0.0 <= r <= 1.0
    ensures 0.0 <= t <= 1.0 ==> r == t
    ensures t <= 0.0 ==> r == 0.0
    ensures t >= 1.0 ==> r == 1.0
  {
    if t < 0.0 then 0.0 else if t > 1.0 then 1.0 else t
  }

  /** Mathf.Lerp: moves from `a` to `b` as the clamped parameter `t` goes from 0 to 1. */
  function Lerp(a: real, b: real, t: real): (r: real)
    ensures t <= 0.0 ==> r == a
    ensures t >= 1.0 ==> r == b
    ensures Min(a, b) <= r <= Max(a, b)
  {
    var c := Clamp01(t);
    LerpBetween(a, b, c);
    a + (b - a) * c
  }

  lemma LerpBetween(a: real, b: real, c: real)
    requires 0.0 <= c <= 1.0
    ensures Min(a, b) <= a + (b - a) * c <= Max(a, b)
  {
    if a <= b {
      MulNonNegative(b - a, c);
      MulNonNegative(b - a, 1.0 - c);
      assert (b - a) * (1.0 - c) == (b - a) - (b - a) * c;
    } else {
      MulNonNegative(a - b, c);
      MulNonNegative(a - b, 1.0 - c);
      assert (a - b) * (1.0 - c) == (a - b) - (a - b) * c;
      assert (b - a) * c == -((a - b) * c);
    }
  }

  /** A lerp towards a lower (higher) end never goes back up (down) as `t` grows. */
  lemma LerpMonotone(a: real, b: real, t1: real, t2: real)
    requires t1 <= t2
    ensures a <= b ==> Lerp(a, b, t1) <= Lerp(a, b, t2)
    ensures b <= a ==> Lerp(a, b, t1) >= Lerp(a, b, t2)
  {
    var c1, c2 := Clamp01(t1), Clamp01(t2);
    var d := c2 - c1;
    assert Lerp(a, b, t2) - Lerp(a, b, t1) == (b - a) * d;
    if a <= b {
      MulNonNegative(b - a, d);
    } else {
      MulNonNegative(a - b, d);
      assert (b - a) * d == -((a - b) * d);
    }
  }

  lemma MulNonNegative(x: real, y: real)
    requires x >= 0.0 && y >= 0.0
    ensures x * y >= 0.0
  {
  }

  lemma MulMonotone(x: real, c1: real, c2: real)
    requires x >= 0.0 && c1 <= c2
    ensures x * c1 <= x * c2
  {
    MulNonNegative(x, c2 - c1);
    assert x * c2 - x * c1 == x * (c2 - c1);
  }

  /** MulMonotone as an implication, for use inside function bodies. */
  lemma MulMonotoneIfNonNegative(x: real, c1: real, c2: real)
    ensures x >= 0.0 && c1 <= c2 ==> x * c1 <= x * c2
  {
    if x >= 0.0 && c1 <= c2 {
      MulMonotone(x, c1, c2);
    }
  }

  lemma MulStrictlyMonotone(x: real, c1: real, c2: real)
    requires x > 0.0 && c1 < c2
    ensures x * c1 < x * c2
  {
    assert x * c2 - x * c1 == x * (c2 - c1);
  }

  lemma DivMonotone(n1: real, n2: real, d: real)
    requires d > 0.0 && n1 <= n2
    ensures n1 / d <= n2 / d
  {
    var q1, q2 := n1 / d, n2 / d;
    assert d * q1 == n1;
    assert d * q2 == n2;
    if q1 > q2 {
      MulStrictlyMonotone(d, q2, q1);
      assert false;
    }
  }

  lemma DivAtLeastOne(n: real, d: real)
    requires d > 0.0 && n >= d
    ensures n / d >= 1.0
  {
    assert d / d == 1.0;
    DivMonotone(d, n, d);
  }

  lemma DivNonNegative(n: real, d: real)
    requires d > 0.0 && n >= 0.0
    ensures n / d >= 0.0
  {
    assert 0.0 / d == 0.0;
    DivMonotone(0.0, n, d);
  }

  /** A quotient whose numerator does not exceed its positive denominator is at most 1. */
  lemma DivAtMostOne(n: real, d: real)
    requires d > 0.0 && n <= d
    ensures n / d <= 1.0
  {
    var q := n / d;
    assert d * q == n;
    if q > 1.0 {
      MulStrictlyMonotone(d, 1.0, q);
      assert false;
    }
  }

  /**
   * Mathf.InverseLerp: where `v` lies between `a` and `b`, as a fraction
   * clamped to [0, 1]; 0 when the two ends coincide.
   */
  function InverseLerp(a: real, b: real, v: real): (r: real)
    ensures 0.0 <= r <= 1.0
    ensures a == b ==> r == 0.0
    ensures a < b && v <= a ==> r == 0.0
    ensures a < b && v >= b ==> r == 1.0
  {
    if a != b then
      assert a < b && v <= a ==> (v - a) / (b - a) <= 0.0 by {
        if a < b && v <= a { DivMonotone(v - a, 0.0, b - a); }
      }
      assert a < b && v >= b ==> (v - a) / (b - a) >= 1.0 by {
        if a < b && v >= b { DivAtLeastOne(v - a, b - a); }
      }
      Clamp01((v - a) / (b - a))
    else 0.0
  }

  /** Between increasing ends, InverseLerp is undone by Lerp for every value in between. */
  lemma LerpUndoesInverseLerp(a: real, b: real, v: real)
    requires a < b && a <= v <= b
    ensures Lerp(a, b, InverseLerp(a, b, v)) == v
  {
    var d := b - a;
    var f := (v - a) / d;
    assert d * f == v - a;
    DivNonNegative(v - a, d);
    DivAtMostOne(v - a, d);
    assert InverseLerp(a, b, v) == f;
  }

  /** Between increasing ends, InverseLerp never decreases. */
  lemma InverseLerpMonotone(a: real, b: real, v1: real, v2: real)
    requires a < b && v1 <= v2
    ensures InverseLerp(a, b, v1) <= InverseLerp(a, b, v2)
  {
    DivMonotone(v1 - a, v2 - a, b - a);
  }

  /**
   * The lerp parameter t / d of a coroutine loop `while (t < d) { t += dt; … t / d … }`.
   * The loops only divide after checking t < d with t >= 0, so d > 0 wherever
   * the source divides; a non-positive d stands for a ramp already finished.
   */
  function Progress(t: real, d: real): (r: real)
    ensures d > 0.0 && t >= d ==> r >= 1.0
    ensures d > 0.0 && t >= 0.0 ==> r >= 0.0
    ensures d <= 0.0 ==> r == 1.0
  {
    if d > 0.0 then
      assert t >= d ==> t / d >= 1.0 by {
        if t >= d { DivAtLeastOne(t, d); }
      }
      assert t >= 0.0 ==> t / d >= 0.0 by {
        if t >= 0.0 { DivNonNegative(t, d); }
      }
      t / d
    else 1.0
  }

  /** More elapsed time never means less progress. */
  lemma ProgressMonotone(t1: real, t2: real, d: real)
    requires t1 <= t2
    ensures Progress(t1, d) <= Progress(t2, d)
  {
    if d > 0.0 {
      DivMonotone(t1, t2, d);
    }
  }

  /**
   * Random.Range(lo, hi) for floats, given the engine's uniform draw `u`
   * from [0, 1] (a draw outside it is clamped).
   */
  function RandomRange(lo: real, hi: real, u: real): (r: real)
    ensures Min(lo, hi) <= r <= Max(lo, hi)
    ensures 0.0 <= u <= 1.0 ==> r == lo + (hi - lo) * u
  {
    Lerp(lo, hi, u)
  }

  /**
   * The two random draws of a PickNewDirection: Random.insideUnitCircle.normalized
   * and the uniform fraction behind the Random.Range of the direction timer.
   */
  datatype DirectionDraw = DirectionDraw(dir: Vec2, u: real)

  /**
   * What a trigger collider touched: a wall tagged "BoundaryWall", the
   * agent's own collider, the body of another prey, or anything else.
   */
  datatype Contact = BoundaryWall | OwnBody | AnotherPrey | OtherBody
}
