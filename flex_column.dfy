/** The stand-alone `FlexCol` of `src/elements/flex/column.rs`: the column layout of
    the flex containers, whose renderer also hands the parent's vertical scroll
    offset down to every child. */
module FlexColumn {
  import opened Common
  import opened Transform
  import RenderScopes
  import Flex

  /** `ColumnRenderer::before_draw` of this file: the new state and the child's new
      transform, or None where a `u16` addition would panic. */
  function ColumnStep(a: Flex.Acc, gap: U16, t: RawTransform): (r: Option<(Flex.Acc, RawTransform)>)
    ensures r.Some? <==> Flex.ColumnFits(a, gap, t)
    ensures r.Some? ==>
      r.value.0 == Flex.ColumnStep(a, gap, t).value.0 &&
      r.value.1 == Flex.ColumnStep(a, gap, t).value.1.(offsetY := a.parent.offsetY)
  {
    if !Flex.ColumnFits(a, gap, t) then None
    else
      var p := a.parent;
      var height := Max(p.height, t.height + t.py * 2);
      var child := t.(x := t.x + (p.x + a.offset), y := t.y + p.y);
      var offset := a.offset + (t.width + gap + t.px * 2);
      var child' := child.(px := child.px + p.px, py := child.py + p.py);
      var width := p.width + (child'.width + child'.px * 2 + gap);
      Some((Flex.Acc(p.(width := width, height := height), offset), child'.(offsetY := p.offsetY)))
  }

  /** A whole renderer pass over the child transforms `ts`. */
  function ColumnRun(a: Flex.Acc, gap: U16, ts: seq<RawTransform>): (r: Option<(Flex.Acc, seq<RawTransform>)>)
    ensures r.Some? ==> |r.value.1| == |ts|
    decreases |ts|
  {
    if ts == [] then Some((a, []))
    else
      match ColumnRun(a, gap, ts[..|ts| - 1])
      case None => None
      case Some((a', placed)) =>
        match ColumnStep(a', gap, ts[|ts| - 1])
        case None => None
        case Some((a'', child)) => Some((a'', placed + [child]))
  }

  /** Every child carries the parent's scroll offset. */
  predicate Scrolled(a: Flex.Acc, placed: seq<RawTransform>)
  {
    forall i :: 0 <= i < |placed| ==> placed[i].offsetY == a.parent.offsetY
  }

  /** A pass lays the children out exactly as the column renderer of the flex
      containers does, and hands each of them the parent's `offset_y`. */
  lemma {:induction false} ColumnPass(a: Flex.Acc, gap: U16, ts: seq<RawTransform>)
    requires ColumnRun(a, gap, ts).Some?
    ensures Flex.ColumnLaidOut(a, gap, ts, ColumnRun(a, gap, ts).value.0, ColumnRun(a, gap, ts).value.1)
    ensures Scrolled(a, ColumnRun(a, gap, ts).value.1)
    decreases |ts|
  {
    if ts != [] {
      var init := ts[..|ts| - 1];
      var t := ts[|ts| - 1];
      ColumnPass(a, gap, init);
      var (a1, placed1) := ColumnRun(a, gap, init).value;
      Flex.ColumnLaidOutStep(a, gap, init, a1, placed1, t);
      assert init + [t] == ts;
      var flexPlaced := placed1 + [Flex.ColumnStep(a1, gap, t).value.1];
      var placed := ColumnRun(a, gap, ts).value.1;
      assert placed == placed1 + [ColumnStep(a1, gap, t).value.1];
      forall i | 0 <= i < |ts|
        ensures Flex.ColumnPlaced(a, gap, ts, i, placed[i])
      {
        assert Flex.ColumnPlaced(a, gap, ts, i, flexPlaced[i]);
      }
    }
  }

  lemma {:induction false} ColumnRunPrefix(a: Flex.Acc, gap: U16, ts: seq<RawTransform>, n: nat)
    requires n <= |ts| && ColumnRun(a, gap, ts).Some?
    ensures ColumnRun(a, gap, ts[..n]).Some?
    decreases |ts|
  {
    if n < |ts| {
      ColumnRunPrefix(a, gap, ts[..|ts| - 1], n);
      assert ts[..|ts| - 1][..n] == ts[..n];
    } else {
      assert ts[..n] == ts;
    }
  }

  lemma ColumnRunStep(a: Flex.Acc, gap: U16, ts: seq<RawTransform>, i: nat)
    requires i < |ts| && ColumnRun(a, gap, ts).Some?
    ensures ColumnRun(a, gap, ts[..i]).Some?
    ensures ColumnStep(ColumnRun(a, gap, ts[..i]).value.0, gap, ts[i]).Some?
    ensures var (a', placed) := ColumnRun(a, gap, ts[..i]).value;
      var (a'', child) := ColumnStep(a', gap, ts[i]).value;
      ColumnRun(a, gap, ts[..i + 1]) == Some((a'', placed + [child]))
  {
    ColumnRunPrefix(a, gap, ts, i + 1);
    assert ts[..i + 1][..i] == ts[..i];
  }

  /** The `ColumnRenderer` of this file. */
  class ColumnRenderer {
    var parent: RawTransform
    const gap: U16
    var offset: U16

    constructor (parent: RawTransform, gap: U16)
      ensures this.parent == parent && this.gap == gap && offset == 0
    {
      this.parent := parent;
      this.gap := gap;
      offset := 0;
    }

    /** `before_draw` for a child whose transform is `t`; returns the child's new transform. */
    method BeforeDraw(t: RawTransform) returns (placed: RawTransform)
      requires Flex.ColumnFits(Flex.Acc(parent, offset), gap, t)
      modifies this
      ensures (Flex.Acc(parent, offset), placed) == ColumnStep(Flex.Acc(old(parent), old(offset)), gap, t).value
    {
      var c := t;
      parent := parent.(height := Max(parent.height, c.height + c.py * 2));
      c := c.(x := c.x + (parent.x + offset));
      c := c.(y := c.y + parent.y);
      offset := offset + (c.width + gap + c.px * 2);
      c := c.(px := c.px + parent.px);
      c := c.(py := c.py + parent.py);
      parent := parent.(width := parent.width + (c.width + c.px * 2 + gap));
      c := c.(offsetY := parent.offsetY);
      placed := c;
    }
  }

  /** `FlexCol` of this file: the gap, the children (widget identities) and the area
      it claims. */
  class FlexCol {
    var gap: U16
    var children: seq<nat>
    var renderWidth: U16
    var renderHeight: U16

    /** `FlexCol::new`. */
    constructor ()
      ensures gap == 0 && children == [] && renderWidth == 0 && renderHeight == 0
    {
      gap := 0;
      children := [];
      renderWidth := 0;
      renderHeight := 0;
    }

    /** `render`: claims the area recorded by the last `after_render`. */
    method Render(scope: RenderScopes.RenderScope)
      modifies scope
      ensures scope.transform == RenderScopes.Grow(old(scope.transform), renderWidth, renderHeight)
      ensures scope.renderStack == old(scope.renderStack)
      ensures scope.parentWidth == old(scope.parentWidth) && scope.parentHeight == old(scope.parentHeight)
      ensures scope.style == old(scope.style)
    {
      scope.UseArea(renderWidth, renderHeight);
    }

    /** `after_render`: `origin` is the transform derived from the parent scope and
        `ts[i]` the transform child `i` has when its `before_draw` runs. The column
        starts at width 0 and offset 0 and records the size the pass grew it to. */
    method AfterRender(origin: RawTransform, ts: seq<RawTransform>) returns (placed: seq<RawTransform>)
      requires |ts| == |children|
      requires ColumnRun(Flex.Acc(origin.(width := 0), 0), gap, ts).Some?
      modifies this
      ensures gap == old(gap) && children == old(children)
      ensures var (a, p) := ColumnRun(Flex.Acc(origin.(width := 0), 0), gap, ts).value;
        placed == p && renderWidth == a.parent.width && renderHeight == a.parent.height
    {
      ghost var a0 := Flex.Acc(origin.(width := 0), 0);
      var renderer := new ColumnRenderer(origin.(width := 0), gap);
      placed := [];
      var i := 0;
      while i < |ts|
        invariant 0 <= i <= |ts|
        invariant fresh(renderer) && renderer.gap == gap
        invariant gap == old(gap) && children == old(children)
        invariant ColumnRun(a0, gap, ts[..i]) == Some((Flex.Acc(renderer.parent, renderer.offset), placed))
      {
        ColumnRunStep(a0, gap, ts, i);
        var child := renderer.BeforeDraw(ts[i]);
        placed := placed + [child];
        i := i + 1;
      }
      assert ts[..i] == ts;
      renderWidth, renderHeight := renderer.parent.width, renderer.parent.height;
    }

    /** `draw_child`: appends the child. */
    method DrawChild(w: nat)
      modifies this
      ensures children == old(children) + [w]
      ensures gap == old(gap) && renderWidth == old(renderWidth) && renderHeight == old(renderHeight)
    {
      children := children + [w];
    }
  }
}
