/** The velocity container (`VelocityHandler`): each child carrying a `Velocity`
    component drifts one cell at a time, at a rate set by its velocity, while a
    tick counter cycles through 0..=1000 once per frame. The children themselves
    are widget identities; what the render scope does with a child between two
    `before_draw` calls is not part of this model, so one pass of the renderer is
    given as the sequence of `(Velocity component, transform)` pairs it sees. */
module VelocityHandler {
  import opened Common
  import opened Transform
  import RenderScopes

  /** The `Velocity(vx, vy)` component. */
  datatype Velocity = Velocity(vx: I32, vy: I32)

  /** One `progress` entry: the displacement a child has accumulated. */
  datatype Progress = Progress(ax: I32, ay: I32)

  /** What `saturating_add`/`saturating_sub` leave of an exact `u16` result. */
  function ClampU16(n: int): U16
  {
    if n < 0 then 0 else if n > U16_MAX then U16_MAX else n
  }

  /** What `saturating_add`/`saturating_sub` leave of an exact `i32` result. */
  function ClampI32(n: int): I32
  {
    if n < I32_MIN then I32_MIN else if n > I32_MAX then I32_MAX else n
  }

  function Sign(v: int): int
  {
    if v > 0 then 1 else if v < 0 then -1 else 0
  }

  /** `(1000 / |v|).max(1)`: the number of ticks between two moves. */
  function Interval(v: int): (n: nat)
    requires v != 0
    ensures 1 <= n <= 1000
    ensures n == 1 <==> Abs(v) > 500
    ensures Abs(v) <= 1000 ==> n * Abs(v) <= 1000 < (n + 1) * Abs(v)
  {
    Max(1000 / Abs(v), 1)
  }

  /** The outcome of `apply_velocity`: whether it moved, and the coordinate after it. */
  datatype Moved = Moved(moved: bool, x: U16)

  /** `apply_velocity(ticks, velocity, &mut x)`. `velocity.abs()` overflows on
      `i32::MIN`, which the precondition excludes. */
  function ApplyVelocity(ticks: U16, velocity: I32, x: U16): (r: Moved)
    requires velocity != I32_MIN
    ensures r.moved <==> velocity != 0 && ticks % Interval(velocity) == 0
    ensures r.moved ==> r.x == ClampU16(x + Sign(velocity))
    ensures !r.moved ==> r.x == x
  {
    var absV := Abs(velocity);
    if absV == 0 then Moved(false, x)
    else if ticks % Max(1000 / absV, 1) == 0 then
      Moved(true, if velocity > 0 then ClampU16(x + 1) else ClampU16(x - 1))
    else Moved(false, x)
  }

  /** Opposite velocities move on the same ticks, in opposite directions. */
  lemma ApplyVelocityMirrors(ticks: U16, velocity: I32, x: U16)
    requires velocity != I32_MIN
    ensures ApplyVelocity(ticks, -velocity, x).moved == ApplyVelocity(ticks, velocity, x).moved
    ensures ApplyVelocity(ticks, velocity, x).moved ==>
      ApplyVelocity(ticks, velocity, x).x - x == -(ApplyVelocity(ticks, -velocity, x).x - x)
      || x == 0 || x == U16_MAX
  {
    if velocity != 0 {
      assert Abs(-velocity) == Abs(velocity);
      assert Interval(-velocity) == Interval(velocity);
    }
  }

  /** `add_i32_to_u16(&mut value, delta)`: the magnitude goes through `as u16`, which
      keeps its low 16 bits, before the saturating step; `-delta` overflows on
      `i32::MIN`, which the precondition excludes. */
  function AddI32ToU16(value: U16, delta: I32): (r: U16)
    requires delta != I32_MIN
    ensures Abs(delta) <= U16_MAX ==> r == ClampU16(value + delta)
    ensures delta >= 0 ==> value <= r
    ensures delta <= 0 ==> r <= value
  {
    if delta >= 0 then ClampU16(value + delta % 0x1_0000)
    else ClampU16(value - (-delta) % 0x1_0000)
  }

  /** The `as u16` cast wraps: a displacement of exactly 65536 does not move at all. */
  lemma AddI32ToU16Truncates(value: U16)
    ensures AddI32ToU16(value, 0x1_0000) == value
    ensures AddI32ToU16(value, -0x1_0000) == value
  {
  }

  /** `apply_value(&mut x, velocity)`: one step toward the sign of `velocity`, with
      a zero velocity counting as negative, saturating at the `i32` bounds. */
  function ApplyValue(acc: I32, velocity: I32): (r: I32)
    ensures velocity > 0 ==> acc <= r <= acc + 1
    ensures velocity <= 0 ==> acc - 1 <= r <= acc
    ensures r == acc <==> (velocity > 0 && acc == I32_MAX) || (velocity <= 0 && acc == I32_MIN)
  {
    if velocity > 0 then ClampI32(acc + 1) else ClampI32(acc - 1)
  }

  /** The tick update at the end of `after_render`: 1000 wraps to 0. */
  function NextTick(tick: U16): (r: U16)
    requires tick <= 1000
    ensures r <= 1000
    ensures r == (tick + 1) % 1001
  {
    if tick == 1000 then 0 else tick + 1
  }

  /** The tick after `n` frames of a new handler. */
  function Ticks(n: nat): (r: U16)
    ensures r <= 1000
  {
    if n == 0 then 0 else NextTick(Ticks(n - 1))
  }

  /** The tick counts frames modulo 1001, so it takes every value of 0..=1000. */
  lemma {:induction false} TicksCycle(n: nat)
    ensures Ticks(n) == n % 1001
  {
    if n > 0 {
      TicksCycle(n - 1);
      TickStep(n);
    }
  }

  lemma TickStep(n: nat)
    requires n > 0
    ensures ((n - 1) % 1001 + 1) % 1001 == n % 1001
  {
    var q, r := (n - 1) / 1001, (n - 1) % 1001;
    assert n == 1001 * q + r + 1;
    if r + 1 == 1001 {
      assert n == 1001 * (q + 1);
    }
  }

  /** One coordinate of a child together with its accumulated displacement. */
  datatype Axis = Axis(pos: U16, acc: I32)

  /** The `i32` values on which lines 105-113 do not overflow. */
  predicate AxisDefined(v: I32, acc: I32)
  {
    v != I32_MIN && acc != I32_MIN
  }

  /** Lines 105-113 for one axis: add the accumulated displacement, then possibly
      move one step and count that step in the displacement. */
  function AxisStep(tick: U16, v: I32, a: Axis): (r: Axis)
    requires AxisDefined(v, a.acc)
    ensures v == 0 ==> r == Axis(AddI32ToU16(a.pos, a.acc), a.acc)
    ensures Abs(r.pos - AddI32ToU16(a.pos, a.acc)) <= 1 && Abs(r.acc - a.acc) <= 1
    ensures v > 0 ==> r.pos >= AddI32ToU16(a.pos, a.acc) && r.acc >= a.acc
    ensures v < 0 ==> r.pos <= AddI32ToU16(a.pos, a.acc) && r.acc <= a.acc
  {
    var pos := AddI32ToU16(a.pos, a.acc);
    var m := ApplyVelocity(tick, v, pos);
    Axis(m.x, if m.moved then ApplyValue(a.acc, v) else a.acc)
  }

  /** The state a `VelocityRenderer` works on: the parent transform it grows, the
      shared `progress` list, the index of the next child and the handler's tick. */
  datatype Pass = Pass(parent: RawTransform, progress: seq<Progress>, index: nat, tick: U16)

  /** One `before_draw` call: the widget's `Velocity` component and its transform. */
  datatype Frame = Frame(velocity: Option<Velocity>, transform: RawTransform)

  /** Lines 103-117: the progress list and the child transform after the velocity is
      applied; None where `abs` or `-delta` would overflow. */
  function Drift(s: Pass, vel: Option<Velocity>, t: RawTransform): (r: Option<(seq<Progress>, RawTransform)>)
    ensures vel.None? ==> r == Some((s.progress, t))
    ensures vel.Some? && s.index >= |s.progress| ==> r == Some((s.progress + [Progress(0, 0)], t))
    ensures r.Some? && s.index < |s.progress| ==>
      |r.value.0| == |s.progress| &&
      forall i :: 0 <= i < |s.progress| && i != s.index ==> r.value.0[i] == s.progress[i]
    ensures r.Some? ==> r.value.1 == t.(x := r.value.1.x, y := r.value.1.y)
  {
    match vel
    case None => Some((s.progress, t))
    case Some(v) =>
      if s.index < |s.progress| then
        var p := s.progress[s.index];
        if AxisDefined(v.vx, p.ax) && AxisDefined(v.vy, p.ay) then
          var ax := AxisStep(s.tick, v.vx, Axis(t.x, p.ax));
          var ay := AxisStep(s.tick, v.vy, Axis(t.y, p.ay));
          Some((s.progress[s.index := Progress(ax.acc, ay.acc)], t.(x := ax.pos, y := ay.pos)))
        else None
      else Some((s.progress + [Progress(0, 0)], t))
  }

  /** The `u16` additions of lines 121-125 do not overflow for parent `p` and child `t`. */
  predicate Placeable(p: RawTransform, t: RawTransform)
  {
    t.x + t.width + 2 * t.px <= U16_MAX && t.y + t.height + 2 * t.py <= U16_MAX &&
    t.x + p.x + p.px <= U16_MAX && t.y + p.y + p.py <= U16_MAX
  }

  /** `VelocityRenderer::before_draw` for a widget with transform `t` and `Velocity`
      component `vel`: the pass after the call and the child's new transform, or None
      where Rust would panic on an overflow. */
  function Step(s: Pass, vel: Option<Velocity>, t: RawTransform): (r: Option<(Pass, RawTransform)>)
    ensures r.Some? ==> r.value.0.index == s.index + 1 && r.value.0.tick == s.tick
    ensures r.Some? ==>
      |r.value.0.progress| == |s.progress| + (if vel.Some? && s.index >= |s.progress| then 1 else 0)
    ensures r.Some? && vel.Some? && s.index >= |s.progress| ==>
      r.value.0.progress == s.progress + [Progress(0, 0)]
    ensures r.Some? ==>
      forall i :: 0 <= i < |s.progress| && i != s.index ==> r.value.0.progress[i] == s.progress[i]
    ensures r.Some? ==>
      r.value.0.parent.(width := s.parent.width, height := s.parent.height) == s.parent &&
      r.value.0.parent.width >= s.parent.width && r.value.0.parent.height >= s.parent.height
    ensures r.Some? ==>
      var c := r.value.1;
      c.width == t.width && c.height == t.height && c.px == t.px && c.py == t.py &&
      c.offsetY == s.parent.offsetY &&
      c.x >= s.parent.x + s.parent.px && c.y >= s.parent.y + s.parent.py &&
      r.value.0.parent.width >= c.x - (s.parent.x + s.parent.px) + c.width + 2 * c.px &&
      r.value.0.parent.height >= c.y - (s.parent.y + s.parent.py) + c.height + 2 * c.py
    ensures r.Some? ==>
      var c := r.value.1;
      r.value.0.parent.width == Max(s.parent.width, c.x - (s.parent.x + s.parent.px) + c.width + 2 * c.px) &&
      r.value.0.parent.height == Max(s.parent.height, c.y - (s.parent.y + s.parent.py) + c.height + 2 * c.py)
    ensures (vel.None? || s.index >= |s.progress|) ==>
      (r.Some? <==> Placeable(s.parent, t)) &&
      (r.Some? ==> r.value.1.x == t.x + s.parent.x + s.parent.px &&
                   r.value.1.y == t.y + s.parent.y + s.parent.py)
  {
    match Drift(s, vel, t)
    case None => None
    case Some((progress, t1)) =>
      if Placeable(s.parent, t1) then
        var p := s.parent;
        var parent := p.(width := Max(p.width, t1.x + t1.width + 2 * t1.px),
                         height := Max(p.height, t1.y + t1.height + 2 * t1.py));
        var child := t1.(x := t1.x + (p.x + p.px), y := t1.y + (p.y + p.py), offsetY := p.offsetY);
        Some((Pass(parent, progress, s.index + 1, s.tick), child))
      else None
  }

  /** A whole renderer pass over `frames`, or None where a call would panic. */
  function Run(s: Pass, frames: seq<Frame>): Option<Pass>
    decreases |frames|
  {
    if frames == [] then Some(s)
    else
      var last := frames[|frames| - 1];
      match Run(s, frames[..|frames| - 1])
      case None => None
      case Some(s') =>
        match Step(s', last.velocity, last.transform)
        case None => None
        case Some(r) => Some(r.0)
  }

  lemma RunSnoc(s: Pass, frames: seq<Frame>, f: Frame)
    ensures Run(s, frames + [f]) ==
      match Run(s, frames)
      case None => None
      case Some(s') =>
        match Step(s', f.velocity, f.transform)
        case None => None
        case Some(r) => Some(r.0)
  {
    assert (frames + [f])[..|frames|] == frames;
  }

  /** A pass that completes has completed every prefix of itself. */
  lemma {:induction false} RunPrefix(s: Pass, frames: seq<Frame>, n: nat)
    requires n <= |frames| && Run(s, frames).Some?
    ensures Run(s, frames[..n]).Some?
    decreases |frames|
  {
    if n < |frames| {
      var init := frames[..|frames| - 1];
      RunPrefix(s, init, n);
      assert init[..n] == frames[..n];
    } else {
      assert frames[..n] == frames;
    }
  }

  /** One more frame of a pass that completes. */
  lemma RunStep(s: Pass, frames: seq<Frame>, i: nat)
    requires i < |frames| && Run(s, frames).Some?
    ensures Run(s, frames[..i]).Some?
    ensures Step(Run(s, frames[..i]).value, frames[i].velocity, frames[i].transform).Some?
    ensures Run(s, frames[..i + 1]) ==
      Some(Step(Run(s, frames[..i]).value, frames[i].velocity, frames[i].transform).value.0)
  {
    RunPrefix(s, frames, i + 1);
    RunSnoc(s, frames[..i], frames[i]);
    assert frames[..i + 1] == frames[..i] + [frames[i]];
  }

  /** `before_draw` advances the child index once per widget, the progress list only
      grows (by at most one entry per widget), the tick is untouched, and the parent's
      width and height never shrink. */
  lemma {:induction false} RunBookkeeping(s: Pass, frames: seq<Frame>)
    requires Run(s, frames).Some?
    ensures Run(s, frames).value.index == s.index + |frames|
    ensures Run(s, frames).value.tick == s.tick
    ensures |s.progress| <= |Run(s, frames).value.progress| <= |s.progress| + |frames|
    ensures Run(s, frames).value.parent.width >= s.parent.width
    ensures Run(s, frames).value.parent.height >= s.parent.height
    decreases |frames|
  {
    if frames != [] {
      var init := frames[..|frames| - 1];
      RunBookkeeping(s, init);
    }
  }

  /** The fields of a `VelocityRenderer` (`self.0` .. `self.3`). */
  class Renderer {
    var parent: RawTransform
    var progress: seq<Progress>
    var index: nat
    var tick: U16

    constructor (parent: RawTransform, progress: seq<Progress>, tick: U16)
      ensures State() == Pass(parent, progress, 0, tick)
    {
      this.parent := parent;
      this.progress := progress;
      this.index := 0;
      this.tick := tick;
    }

    function State(): Pass
      reads this
    {
      Pass(parent, progress, index, tick)
    }

    /** `before_draw`: returns the child's transform after the call. */
    method BeforeDraw(vel: Option<Velocity>, t: RawTransform) returns (placed: RawTransform)
      requires Step(State(), vel, t).Some?
      modifies this
      ensures (State(), placed) == Step(old(State()), vel, t).value
    {
      ghost var s := State();
      var c := t;
      match vel {
        case Some(v) =>
          if index < |progress| {
            var p := progress[index];
            var ax := AxisStep(tick, v.vx, Axis(c.x, p.ax));
            var ay := AxisStep(tick, v.vy, Axis(c.y, p.ay));
            c := c.(x := ax.pos, y := ay.pos);
            progress := progress[index := Progress(ax.acc, ay.acc)];
          } else {
            progress := progress + [Progress(0, 0)];
          }
        case None =>
      }
      index := index + 1;
      parent := parent.(width := Max(parent.width, c.x + c.width + c.px * 2));
      parent := parent.(height := Max(parent.height, c.y + c.height + c.py * 2));
      c := c.(x := c.x + (parent.x + parent.px), y := c.y + (parent.y + parent.py));
      c := c.(offsetY := parent.offsetY);
      placed := c;
    }
  }

  /** The fields of a `VelocityHandler`; children are widget identities. */
  class Handler {
    var children: seq<nat>
    var progress: seq<Progress>
    var renderWidth: U16
    var renderHeight: U16
    var tick: U16

    /** Every child has a progress entry (passes may add more) and the tick is in 0..=1000. */
    ghost predicate Valid()
      reads this
    {
      |children| <= |progress| && tick <= 1000
    }

    /** `VelocityHandler::new`. */
    constructor ()
      ensures Valid()
      ensures children == [] && progress == [] && tick == 0
      ensures renderWidth == 0 && renderHeight == 0
    {
      children := [];
      progress := [];
      renderWidth := 0;
      renderHeight := 0;
      tick := 0;
    }

    /** `render`: claims the area recorded by the last `after_render`. */
    method Render(scope: RenderScopes.RenderScope)
      modifies scope
      ensures scope.transform == RenderScopes.Grow(old(scope.transform), renderWidth, renderHeight)
      ensures scope.renderStack == old(scope.renderStack)
      ensures scope.parentWidth == old(scope.parentWidth) && scope.parentHeight == old(scope.parentHeight)
      ensures scope.style == old(scope.style)
    {
      scope.UseArea(renderWidth, renderHeight);
    }

    /** `after_render`: `origin` is the transform derived from the parent scope (its
        size and parent transform), and `frames` the `before_draw` calls of the pass.
        The claimed area is what the pass grew from a zero size; the tick advances. */
    method AfterRender(origin: RawTransform, frames: seq<Frame>)
      requires Valid()
      requires Run(Pass(origin.(width := 0, height := 0), progress, 0, tick), frames).Some?
      modifies this
      ensures Valid()
      ensures children == old(children)
      ensures tick == NextTick(old(tick))
      ensures
        var p := Run(Pass(origin.(width := 0, height := 0), old(progress), 0, old(tick)), frames).value;
        progress == p.progress && renderWidth == p.parent.width && renderHeight == p.parent.height
    {
      ghost var s0 := Pass(origin.(width := 0, height := 0), progress, 0, tick);
      var renderer := new Renderer(origin.(width := 0, height := 0), progress, tick);
      var i := 0;
      while i < |frames|
        invariant 0 <= i <= |frames|
        invariant fresh(renderer)
        invariant children == old(children) && progress == old(progress) && tick == old(tick)
        invariant Run(s0, frames[..i]).Some? && renderer.State() == Run(s0, frames[..i]).value
      {
        RunStep(s0, frames, i);
        var _ := renderer.BeforeDraw(frames[i].velocity, frames[i].transform);
        i := i + 1;
      }
      assert frames[..i] == frames;
      RunBookkeeping(s0, frames);
      renderWidth, renderHeight := renderer.parent.width, renderer.parent.height;
      progress := renderer.progress;
      tick := if tick == 1000 then 0 else tick + 1;
    }

    /** `draw_child`: a new child and its zero progress entry go at the end. */
    method DrawChild(w: nat)
      requires Valid()
      modifies this
      ensures Valid()
      ensures children == old(children) + [w] && progress == old(progress) + [Progress(0, 0)]
      ensures tick == old(tick) && renderWidth == old(renderWidth) && renderHeight == old(renderHeight)
    {
      progress := progress + [Progress(0, 0)];
      children := children + [w];
    }

    /** `undraw_child`: the first occurrence of `w` and the progress entry at the same
        index are removed; nothing changes when `w` is not a child. */
    method UndrawChild(w: nat)
      requires Valid()
      modifies this
      ensures Valid()
      ensures |progress| - |children| == |old(progress)| - |old(children)|
      ensures w !in old(children) ==> children == old(children) && progress == old(progress)
      ensures w in old(children) ==>
        var i := Position(old(children), w).value;
        children == old(children)[..i] + old(children)[i + 1..] &&
        progress == old(progress)[..i] + old(progress)[i + 1..]
      ensures tick == old(tick) && renderWidth == old(renderWidth) && renderHeight == old(renderHeight)
    {
      match Position(children, w) {
        case Some(i) =>
          children := children[..i] + children[i + 1..];
          progress := progress[..i] + progress[i + 1..];
        case None =>
      }
    }
  }
}
