/** The scroll container (`Scroll`): Up and Down move a vertical scroll offset,
    which every child inherits at layout time. Its renderer overlays the children
    at the container's padded origin and grows the container to the largest of them. */
module Scroll {
  import opened Common
  import opened Transform
  import opened Keys
  import RenderScopes

  /** The scroll offset after a key: Up steps back, saturating at 0; Down steps on
      only while the next offset stays below the claimed height; other keys keep it. */
  function ScrollKey(offset: U16, height: U16, code: KeyCode): (r: U16)
    requires code == Down ==> offset < U16_MAX
    ensures code == Up ==> r == if offset == 0 then 0 else offset - 1
    ensures code == Down ==> r == if offset + 1 < height then offset + 1 else offset
    ensures code != Up && code != Down ==> r == offset
  {
    match code
    case Up => if offset == 0 then 0 else offset - 1
    case Down => if offset + 1 < height then offset + 1 else offset
    case _ => offset
  }

  /** Down never moves the offset to or past the claimed height, and an offset that
      starts in range (below the height, or 0) stays in range under every key. */
  lemma ScrollKeyStaysInRange(offset: U16, height: U16, code: KeyCode)
    requires code == Down ==> offset < U16_MAX
    ensures code == Down && ScrollKey(offset, height, code) != offset ==> ScrollKey(offset, height, code) < height
    ensures offset == 0 || offset < height ==>
      var r := ScrollKey(offset, height, code); r == 0 || r < height
  {
  }

  /** The `u16` additions of `ScrollRenderer::before_draw` that must not overflow. */
  predicate Fits(p: RawTransform, t: RawTransform)
  {
    t.width + 2 * t.px <= U16_MAX && t.height + 2 * t.py <= U16_MAX &&
    t.x + p.x + p.px <= U16_MAX && t.y + p.y + p.py <= U16_MAX
  }

  /** `ScrollRenderer::before_draw`: the grown parent and the child's new transform. */
  function Step(p: RawTransform, t: RawTransform): (r: Option<(RawTransform, RawTransform)>)
    ensures r.Some? <==> Fits(p, t)
    ensures r.Some? ==> r.value.0 == p.(width := r.value.0.width, height := r.value.0.height)
    ensures r.Some? ==> r.value.1 == t.(x := r.value.1.x, y := r.value.1.y, offsetY := p.offsetY)
  {
    if !Fits(p, t) then None
    else
      var p' := p.(width := Max(p.width, t.width + t.px * 2), height := Max(p.height, t.height + t.py * 2));
      Some((p', t.(x := t.x + (p'.x + p'.px), y := t.y + (p'.y + p'.py), offsetY := p'.offsetY)))
  }

  /** A renderer pass over the child transforms `ts`. */
  function Run(p: RawTransform, ts: seq<RawTransform>): (r: Option<(RawTransform, seq<RawTransform>)>)
    ensures r.Some? ==> |r.value.1| == |ts|
    decreases |ts|
  {
    if ts == [] then Some((p, []))
    else
      match Run(p, ts[..|ts| - 1])
      case None => None
      case Some((p', placed)) =>
        match Step(p', ts[|ts| - 1])
        case None => None
        case Some((p'', child)) => Some((p'', placed + [child]))
  }

  /** The widest child, padding included. */
  function WidestChild(ts: seq<RawTransform>): nat
  {
    if ts == [] then 0 else Max(WidestChild(ts[..|ts| - 1]), ts[|ts| - 1].width + 2 * ts[|ts| - 1].px)
  }

  /** The tallest child, padding included. */
  function TallestChild(ts: seq<RawTransform>): nat
  {
    if ts == [] then 0 else Max(TallestChild(ts[..|ts| - 1]), ts[|ts| - 1].height + 2 * ts[|ts| - 1].py)
  }

  /** Child `i` sits at the parent's padded origin and inherits its scroll offset. */
  predicate Overlaid(p: RawTransform, t: RawTransform, c: RawTransform)
  {
    c.x == t.x + p.x + p.px && c.y == t.y + p.y + p.py &&
    c == t.(x := c.x, y := c.y, offsetY := p.offsetY)
  }

  /** The state after a pass: the parent is as wide as its widest and as tall as its
      tallest child (or its starting size), and the children are overlaid. */
  predicate LaidOut(p: RawTransform, ts: seq<RawTransform>, p': RawTransform, placed: seq<RawTransform>)
  {
    |placed| == |ts| &&
    p'.width == Max(p.width, WidestChild(ts)) && p'.height == Max(p.height, TallestChild(ts)) &&
    p' == p.(width := p'.width, height := p'.height) &&
    forall i :: 0 <= i < |ts| ==> Overlaid(p, ts[i], placed[i])
  }

  lemma LaidOutStep(p: RawTransform, ts: seq<RawTransform>, p1: RawTransform, placed: seq<RawTransform>,
                    t: RawTransform)
    requires LaidOut(p, ts, p1, placed) && Step(p1, t).Some?
    ensures LaidOut(p, ts + [t], Step(p1, t).value.0, placed + [Step(p1, t).value.1])
  {
    var ts' := ts + [t];
    assert ts'[..|ts|] == ts;
    var placed' := placed + [Step(p1, t).value.1];
    forall i | 0 <= i < |ts'|
      ensures Overlaid(p, ts'[i], placed'[i])
    {
      if i < |ts| {
        assert Overlaid(p, ts[i], placed[i]);
      }
    }
  }

  /** A pass overlays every child and grows the parent to the largest one. */
  lemma {:induction false} Pass(p: RawTransform, ts: seq<RawTransform>)
    requires Run(p, ts).Some?
    ensures LaidOut(p, ts, Run(p, ts).value.0, Run(p, ts).value.1)
    decreases |ts|
  {
    if ts != [] {
      var init := ts[..|ts| - 1];
      Pass(p, init);
      var (p1, placed1) := Run(p, init).value;
      LaidOutStep(p, init, p1, placed1, ts[|ts| - 1]);
      assert init + [ts[|ts| - 1]] == ts;
    }
  }

  lemma {:induction false} RunPrefix(p: RawTransform, ts: seq<RawTransform>, n: nat)
    requires n <= |ts| && Run(p, ts).Some?
    ensures Run(p, ts[..n]).Some?
    decreases |ts|
  {
    if n < |ts| {
      RunPrefix(p, ts[..|ts| - 1], n);
      assert ts[..|ts| - 1][..n] == ts[..n];
    } else {
      assert ts[..n] == ts;
    }
  }

  /** One child of `ScrollRenderer::before_draw`: the parent grows to cover the
      padded child, and the child moves to the parent's padded origin with its
      scroll offset. */
  method Place(p: RawTransform, t: RawTransform) returns (p': RawTransform, c: RawTransform)
    requires Fits(p, t)
    ensures Step(p, t) == Some((p', c))
  {
    p' := p.(width := Max(p.width, t.width + t.px * 2));
    p' := p'.(height := Max(p'.height, t.height + t.py * 2));
    c := t.(x := t.x + (p'.x + p'.px), y := t.y + (p'.y + p'.py));
    c := c.(offsetY := p'.offsetY);
  }

  lemma RunStep(p: RawTransform, ts: seq<RawTransform>, i: nat)
    requires i < |ts| && Run(p, ts).Some?
    ensures Run(p, ts[..i]).Some?
    ensures Step(Run(p, ts[..i]).value.0, ts[i]).Some?
    ensures var (p', placed) := Run(p, ts[..i]).value;
      var (p'', child) := Step(p', ts[i]).value;
      Run(p, ts[..i + 1]) == Some((p'', placed + [child]))
  {
    RunPrefix(p, ts, i + 1);
    assert ts[..i + 1][..i] == ts[..i];
  }

  /** The fields of a `Scroll`; children are widget identities. */
  class Scroll {
    var scrollOffset: U16
    var children: seq<nat>
    var renderWidth: U16
    var renderHeight: U16

    /** `Scroll::new`. */
    constructor ()
      ensures scrollOffset == 0 && children == [] && renderWidth == 0 && renderHeight == 0
    {
      scrollOffset := 0;
      children := [];
      renderWidth := 0;
      renderHeight := 0;
    }

    /** `render`: claims the area recorded by the last `after_render`. */
    method Render(scope: RenderScopes.RenderScope)
      modifies scope
      ensures scope.transform == RenderScopes.Grow(old(scope.transform), renderWidth, renderHeight)
      ensures scope.renderStack == old(scope.renderStack)
      ensures scope.parentWidth == old(scope.parentWidth) && scope.parentHeight == old(scope.parentHeight)
      ensures scope.style == old(scope.style)
    {
      scope.UseArea(renderWidth, renderHeight);
    }

    /** `event`: key presses move the offset as `ScrollKey` says; anything else is ignored. */
    method Event(ev: AppEvent)
      requires CodeOf(ev) == Some(Down) ==> scrollOffset < U16_MAX
      modifies this
      ensures CodeOf(ev).None? ==> scrollOffset == old(scrollOffset)
      ensures CodeOf(ev).Some? ==> scrollOffset == ScrollKey(old(scrollOffset), renderHeight, CodeOf(ev).value)
      ensures children == old(children) && renderWidth == old(renderWidth) && renderHeight == old(renderHeight)
    {
      if ev.Terminal? && ev.e.Key? {
        match ev.e.key.code {
          case Up =>
            scrollOffset := if scrollOffset == 0 then 0 else scrollOffset - 1;
          case Down =>
            if scrollOffset + 1 < renderHeight {
              scrollOffset := scrollOffset + 1;
            }
          case _ =>
        }
      }
    }

    /** `after_render`: `origin` is the transform derived from the parent scope and
        `ts[i]` the transform child `i` has when its `before_draw` runs. The pass
        starts from a zero size with the container's scroll offset, and the size it
        grows to is recorded. */
    method AfterRender(origin: RawTransform, ts: seq<RawTransform>) returns (placed: seq<RawTransform>)
      requires |ts| == |children|
      requires Run(origin.(offsetY := scrollOffset, width := 0, height := 0), ts).Some?
      modifies this
      ensures scrollOffset == old(scrollOffset) && children == old(children)
      ensures var (p, c) := Run(origin.(offsetY := scrollOffset, width := 0, height := 0), ts).value;
        placed == c && renderWidth == p.width && renderHeight == p.height
    {
      var transform := origin.(offsetY := scrollOffset);
      transform := transform.(width := 0, height := 0);
      ghost var p0 := transform;
      placed := [];
      var i := 0;
      while i < |ts|
        invariant 0 <= i <= |ts|
        invariant scrollOffset == old(scrollOffset) && children == old(children)
        invariant Run(p0, ts[..i]) == Some((transform, placed))
      {
        RunStep(p0, ts, i);
        var t;
        transform, t := Place(transform, ts[i]);
        placed := placed + [t];
        i := i + 1;
      }
      assert ts[..i] == ts;
      renderWidth, renderHeight := transform.width, transform.height;
    }

    /** `draw_child`: appends the child. */
    method DrawChild(w: nat)
      modifies this
      ensures children == old(children) + [w]
      ensures scrollOffset == old(scrollOffset) && renderWidth == old(renderWidth) && renderHeight == old(renderHeight)
    {
      children := children + [w];
    }

    /** `undraw_child`: removes the first occurrence of `w`, if there is one. */
    method UndrawChild(w: nat)
      modifies this
      ensures w !in old(children) ==> children == old(children)
      ensures w in old(children) ==>
        var i := Position(old(children), w).value;
        children == old(children)[..i] + old(children)[i + 1..]
      ensures scrollOffset == old(scrollOffset) && renderWidth == old(renderWidth) && renderHeight == old(renderHeight)
    {
      match Position(children, w) {
        case Some(i) => children := children[..i] + children[i + 1..];
        case None =>
      }
    }
  }
}
