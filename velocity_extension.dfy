/** The older velocity mechanism (`VelocityExtension`): a background loop moves
    every widget with a `Velocity` and a `Transform` component by one cell at a
    time. Unlike the velocity container, its steps are unchecked `u16` arithmetic,
    so the preconditions here are exactly the inputs on which Rust does not panic. */
module VelocityExtension {
  import opened Common
  import VelocityHandler

  /** The `Velocity(vx, vy)` component. */
  datatype Velocity = Velocity(vx: I32, vy: I32)

  /** A coordinate of the `Transform` component: a fixed cell, or one of the
      computed placements, whose definition is not part of this model. */
  datatype Position = Const(n: U16) | Computed(placement: nat)

  /** The `Transform` component: the two positions and the rest of its fields. */
  datatype Transform = Transform(x: Position, y: Position, rest: nat)

  /** The inputs on which `apply_velocity` does not panic: `abs` must not overflow,
      `1000 / |v|` must not be zero (it is a divisor), and a move must stay in `u16`. */
  predicate Defined(ticks: U16, v: I32, x: U16)
  {
    v != I32_MIN &&
    (v != 0 ==>
      Abs(v) <= 1000 &&
      (ticks % (1000 / Abs(v)) == 0 ==> (v > 0 ==> x < U16_MAX) && (v < 0 ==> x > 0)))
  }

  /** `VelocityExtension::apply_velocity(ticks, velocity, &mut x)`. */
  function ApplyVelocity(ticks: U16, v: I32, x: U16): (r: U16)
    requires Defined(ticks, v, x)
    ensures v == 0 ==> r == x
    ensures v != 0 ==> (r != x <==> ticks % (1000 / Abs(v)) == 0)
    ensures v > 0 ==> r == x || r == x + 1
    ensures v < 0 ==> r == x || r == x - 1
  {
    if Abs(v) != 0 && ticks % (1000 / Abs(v)) == 0 then
      if v > 0 then x + 1 else if v < 0 then x - 1 else x
    else x
  }

  /** Wherever it is defined, this step agrees with the velocity container's
      saturating one: for |v| <= 1000 the interval `1000 / |v|` is already at least 1. */
  lemma AgreesWithHandler(ticks: U16, v: I32, x: U16)
    requires Defined(ticks, v, x)
    ensures ApplyVelocity(ticks, v, x) == VelocityHandler.ApplyVelocity(ticks, v, x).x
  {
    if v != 0 {
      assert 1000 / Abs(v) >= 1;
      assert VelocityHandler.Interval(v) == 1000 / Abs(v);
    }
  }

  /** One coordinate under `apply_velocity_xy`: only `Const` positions move. */
  function MovePosition(ticks: U16, v: I32, p: Position): (r: Position)
    requires p.Const? ==> Defined(ticks, v, p.n)
    ensures r.Const? <==> p.Const?
    ensures !p.Const? ==> r == p
    ensures p.Const? ==> r.n == ApplyVelocity(ticks, v, p.n)
  {
    match p
    case Const(n) => Const(ApplyVelocity(ticks, v, n))
    case Computed(_) => p
  }

  /** `apply_velocity_xy` does not panic on this transform. */
  predicate Movable(ticks: U16, vel: Velocity, t: Transform)
  {
    (t.x.Const? ==> Defined(ticks, vel.vx, t.x.n)) && (t.y.Const? ==> Defined(ticks, vel.vy, t.y.n))
  }

  /** The components of one widget that `apply_velocity_xy` reads and writes. */
  class Widget {
    var velocity: Option<Velocity>
    var transform: Option<Transform>

    constructor (velocity: Option<Velocity>, transform: Option<Transform>)
      ensures this.velocity == velocity && this.transform == transform
    {
      this.velocity := velocity;
      this.transform := transform;
    }

    /** `apply_velocity_xy(ticks, widget)`: with both components present, the constant
        coordinates move and the transform is written back; otherwise nothing changes. */
    method ApplyVelocityXY(ticks: U16)
      requires velocity.Some? && transform.Some? ==> Movable(ticks, velocity.value, transform.value)
      modifies this
      ensures velocity == old(velocity)
      ensures old(velocity).None? || old(transform).None? ==> transform == old(transform)
      ensures old(velocity).Some? && old(transform).Some? ==>
        var v, t := old(velocity).value, old(transform).value;
        transform == Some(t.(x := MovePosition(ticks, v.vx, t.x), y := MovePosition(ticks, v.vy, t.y)))
    {
      if velocity.Some? {
        var v := velocity.value;
        if transform.Some? {
          var t := transform.value;
          match t.x {
            case Const(x) => t := t.(x := Const(ApplyVelocity(ticks, v.vx, x)));
            case Computed(_) =>
          }
          match t.y {
            case Const(y) => t := t.(y := Const(ApplyVelocity(ticks, v.vy, y)));
            case Computed(_) =>
          }
          transform := Some(t);
        }
      }
    }
  }

  /** The tick update of the background loop: it resets only after passing 1000. */
  function NextTick(tick: U16): (r: U16)
    requires tick <= 1001
    ensures r <= 1001
    ensures r == (tick + 1) % 1002
  {
    if tick > 1000 then 0 else tick + 1
  }

  /** The tick after `n` sweeps of the loop. */
  function Ticks(n: nat): (r: U16)
    ensures r <= 1001
  {
    if n == 0 then 0 else NextTick(Ticks(n - 1))
  }

  /** The tick counts sweeps modulo 1002: it ranges over 0..=1001, one value more
      than the velocity container's tick. */
  lemma {:induction false} TicksCycle(n: nat)
    ensures Ticks(n) == n % 1002
  {
    if n > 0 {
      TicksCycle(n - 1);
      TickStep(n);
    }
  }

  lemma TickStep(n: nat)
    requires n > 0
    ensures ((n - 1) % 1002 + 1) % 1002 == n % 1002
  {
    var q, r := (n - 1) / 1002, (n - 1) % 1002;
    assert n == 1002 * q + r + 1;
    if r + 1 == 1002 {
      assert n == 1002 * (q + 1);
    }
  }
}
