/**
 * The per-axis velocity rules of the walkthrough's frame loop
 * (js/main.js, `animate`): acceleration with a speed cap, and deceleration
 * toward zero that never overshoots. Numbers are exact reals.
 */
module Kinematics {

  const Acceleration: real := 0.002
  const Deceleration: real := 0.01
  const MaxSpeed: real := 0.1

  function Abs(x: real): real
  {
    if x < 0.0 then -x else x
  }

  /** `Math.max` */
  function Max(a: real, b: real): real
  {
    if a < b then b else a
  }

  /** `Math.min` */
  function Min(a: real, b: real): real
  {
    if a < b then a else b
  }

  /**
   * `THREE.MathUtils.clamp(x, lo, hi)`, which is `Math.max(lo, Math.min(hi, x))`:
   * the point of [lo, hi] nearest to x.
   */
  function Clamp(x: real, lo: real, hi: real): (r: real)
    requires lo <= hi
    ensures lo <= r <= hi
    ensures lo <= x <= hi ==> r == x
    ensures x < lo ==> r == lo
    ensures hi < x ==> r == hi
  {
    Max(lo, Min(hi, x))
  }

  /**
   * One frame of movement on one axis while a key is held:
   * `velocity -= direction * acceleration`, then clamp to [-maxSpeed, maxSpeed].
   */
  function Accelerate(v: real, d: real): (r: real)
    ensures -MaxSpeed <= r <= MaxSpeed
    ensures -MaxSpeed <= v - d * Acceleration <= MaxSpeed ==> r == v - d * Acceleration
    ensures v - d * Acceleration > MaxSpeed ==> r == MaxSpeed
    ensures v - d * Acceleration < -MaxSpeed ==> r == -MaxSpeed
    ensures -MaxSpeed <= v <= MaxSpeed && -1.0 <= d <= 1.0 ==> Abs(r - v) <= Acceleration
    ensures -MaxSpeed <= v <= MaxSpeed && d == 0.0 ==> r == v
    ensures v == -MaxSpeed && d >= 0.0 ==> r == -MaxSpeed
    ensures v == MaxSpeed && d <= 0.0 ==> r == MaxSpeed
  {
    Clamp(v - d * Acceleration, -MaxSpeed, MaxSpeed)
  }

  /**
   * One frame of coasting on one axis while no key is held: a positive
   * component drops by `deceleration` but not below zero, any other rises by
   * `deceleration` but not above zero.
   */
  function Decelerate(v: real): (r: real)
    ensures v > 0.0 ==> 0.0 <= r <= v
    ensures v <= 0.0 ==> v <= r <= 0.0
    ensures Abs(r) <= Abs(v)
    ensures Abs(v) <= Deceleration ==> r == 0.0
    ensures Abs(v) > Deceleration ==> Abs(r) == Abs(v) - Deceleration
  {
    if v > 0.0 then Max(v - Deceleration, 0.0) else Min(v + Deceleration, 0.0)
  }

  /** The component after n frames of coasting: it never crosses zero and never grows. */
  function Glide(v: real, n: nat): (r: real)
    ensures v > 0.0 ==> 0.0 <= r <= v
    ensures v <= 0.0 ==> v <= r <= 0.0
    decreases n
  {
    if n == 0 then v else Glide(Decelerate(v), n - 1)
  }

  /** The least integer not below x. */
  function Ceil(x: real): (n: int)
    ensures n as real >= x && (n - 1) as real < x
  {
    if x.Floor as real == x then x.Floor else x.Floor + 1
  }

  /** ceil(|v| / deceleration): how many coasting frames a component needs to stop. */
  function FramesToRest(v: real): (n: nat)
    ensures n as real * Deceleration >= Abs(v)
    ensures n > 0 ==> (n - 1) as real * Deceleration < Abs(v)
  {
    Ceil(Abs(v) / Deceleration)
  }

  /** Coasting moves a component straight toward zero by one step a frame and stops there. */
  lemma {:induction false} GlideClosedForm(v: real, n: nat)
    ensures Glide(v, n) == if v > 0.0 then Max(v - n as real * Deceleration, 0.0)
                           else Min(v + n as real * Deceleration, 0.0)
    decreases n
  {
    if n > 0 {
      GlideClosedForm(Decelerate(v), n - 1);
    }
  }

  /** After n coasting frames the component is zero exactly when n steps cover its magnitude. */
  lemma {:induction false} GlideStopsExactly(v: real, n: nat)
    ensures Glide(v, n) == 0.0 <==> n as real * Deceleration >= Abs(v)
  {
    GlideClosedForm(v, n);
  }

  /**
   * A component reaches exactly zero after ceil(|v| / deceleration) coasting
   * frames and not one frame earlier.
   */
  lemma {:induction false} GlideRestsAfterFramesToRest(v: real)
    ensures Glide(v, FramesToRest(v)) == 0.0
    ensures forall k: nat :: k < FramesToRest(v) ==> Glide(v, k) != 0.0
  {
    GlideStopsExactly(v, FramesToRest(v));
    forall k: nat | k < FramesToRest(v)
      ensures Glide(v, k) != 0.0
    {
      GlideStopsExactly(v, k);
    }
  }

  /** Once at rest, further coasting frames keep the component at zero. */
  lemma {:induction false} GlideStaysAtRest(v: real, n: nat)
    requires n >= FramesToRest(v)
    ensures Glide(v, n) == 0.0
  {
    GlideStopsExactly(v, n);
  }

  /** The raw direction of one axis: `Number(positive) - Number(negative)`. */
  function Axis(positive: bool, negative: bool): int
  {
    (if positive then 1 else 0) - (if negative then 1 else 0)
  }

  predicate SameSign(raw: int, d: real)
  {
    (raw == 0 ==> d == 0.0) && (raw > 0 ==> d > 0.0) && (raw < 0 ==> d < 0.0)
  }

  /**
   * (dx, dz) is what `direction.normalize()` makes of the raw direction
   * (rx, rz), as far as the model needs it: the zero vector stays zero, any
   * other becomes a unit vector with the same signs.
   */
  predicate Normalised(rx: int, rz: int, dx: real, dz: real)
  {
    if rx == 0 && rz == 0 then dx == 0.0 && dz == 0.0
    else SameSign(rx, dx) && SameSign(rz, dz) && dx * dx + dz * dz == 1.0
  }

  /** Each component of a normalised direction lies in [-1, 1]. */
  lemma UnitComponents(rx: int, rz: int, dx: real, dz: real)
    requires Normalised(rx, rz, dx, dz)
    ensures -1.0 <= dx <= 1.0 && -1.0 <= dz <= 1.0
  {
  }
}
