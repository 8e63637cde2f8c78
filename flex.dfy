/** The flex containers of `src/elements/flex.rs`. `FlexRow` stacks its children
    one under the other, `FlexCol` side by side. Each container lays out its children
    with a renderer whose `before_draw` runs once per child. It moves the child by the
    parent's origin and a running offset `v`, and it grows the parent transform.
    The child transforms come from the children's own rendering, which is not part of
    this model, so they are inputs here. Every `u16` addition that Rust would panic on
    makes a step undefined (None). */
module Flex {
  import opened Common
  import opened Transform
  import RenderScopes

  /** A renderer's running state: the parent transform it grows (`self.0`) and the
      offset `v` of the next child (`*self.2`). */
  datatype Acc = Acc(parent: RawTransform, offset: U16)

  /** The vertical room a child takes in a row: `height + gap + 2·py`. */
  function RowRoom(t: RawTransform, gap: U16): nat
  {
    t.height + gap + 2 * t.py
  }

  /** The horizontal room a child takes in a column: `width + gap + 2·px`. */
  function ColumnRoom(t: RawTransform, gap: U16): nat
  {
    t.width + gap + 2 * t.px
  }

  /** The additions of `RowRenderer::before_draw` that must stay within `u16`. */
  predicate RowFitsAsWritten(a: Acc, gap: U16, t: RawTransform)
  {
    var p := a.parent;
    a.offset + t.width + 2 * t.px <= U16_MAX &&
    t.x + p.x <= U16_MAX && t.y + p.y + a.offset <= U16_MAX &&
    a.offset + RowRoom(t, gap) <= U16_MAX &&
    t.px + p.px <= U16_MAX && t.py + p.py <= U16_MAX &&
    p.height + t.height + 2 * (t.py + p.py) + gap <= U16_MAX
  }

  /** `RowRenderer::before_draw` as written: the new state and the child's new
      transform. The width takes the running offset into account (line 162). */
  function RowStepAsWritten(a: Acc, gap: U16, t: RawTransform): (r: Option<(Acc, RawTransform)>)
    ensures r.Some? <==> RowFitsAsWritten(a, gap, t)
    ensures r.Some? ==>
      r.value.0.parent.(width := a.parent.width, height := a.parent.height) == a.parent &&
      r.value.1.(x := t.x, y := t.y, px := t.px, py := t.py) == t
  {
    if !RowFitsAsWritten(a, gap, t) then None
    else
      var p := a.parent;
      var width := Max(p.width, a.offset + t.width + t.px * 2);
      var child := t.(x := t.x + p.x, y := t.y + (p.y + a.offset));
      var offset := a.offset + (t.height + gap + t.py * 2);
      var child' := child.(px := child.px + p.px, py := child.py + p.py);
      var height := p.height + (child'.height + child'.py * 2 + gap);
      Some((Acc(p.(width := width, height := height), offset), child'))
  }

  /** The additions of the corrected `RowRenderer::before_draw`, whose width rule
      no longer adds the offset. */
  predicate RowFits(a: Acc, gap: U16, t: RawTransform)
  {
    var p := a.parent;
    t.width + 2 * t.px <= U16_MAX &&
    t.x + p.x <= U16_MAX && t.y + p.y + a.offset <= U16_MAX &&
    a.offset + RowRoom(t, gap) <= U16_MAX &&
    t.px + p.px <= U16_MAX && t.py + p.py <= U16_MAX &&
    p.height + t.height + 2 * (t.py + p.py) + gap <= U16_MAX
  }

  /** `RowRenderer::before_draw` with the width rule corrected: the parent is as
      wide as its widest child and that child's padding, whatever the offset. */
  function RowStep(a: Acc, gap: U16, t: RawTransform): (r: Option<(Acc, RawTransform)>)
    ensures r.Some? <==> RowFits(a, gap, t)
    ensures r.Some? ==> r.value.0.parent.width == Max(a.parent.width, t.width + 2 * t.px)
    ensures r.Some? ==>
      r.value.0.parent.(width := a.parent.width, height := a.parent.height) == a.parent &&
      r.value.1.(x := t.x, y := t.y, px := t.px, py := t.py) == t
  {
    if !RowFits(a, gap, t) then None
    else
      var p := a.parent;
      var width := Max(p.width, t.width + t.px * 2);
      var child := t.(x := t.x + p.x, y := t.y + (p.y + a.offset));
      var offset := a.offset + (t.height + gap + t.py * 2);
      var child' := child.(px := child.px + p.px, py := child.py + p.py);
      var height := p.height + (child'.height + child'.py * 2 + gap);
      Some((Acc(p.(width := width, height := height), offset), child'))
  }

  /** The additions of `ColumnRenderer::before_draw` that must stay within `u16`. */
  predicate ColumnFits(a: Acc, gap: U16, t: RawTransform)
  {
    var p := a.parent;
    t.height + 2 * t.py <= U16_MAX &&
    t.x + p.x + a.offset <= U16_MAX && t.y + p.y <= U16_MAX &&
    a.offset + ColumnRoom(t, gap) <= U16_MAX &&
    t.px + p.px <= U16_MAX && t.py + p.py <= U16_MAX &&
    p.width + t.width + 2 * (t.px + p.px) + gap <= U16_MAX
  }

  /** `ColumnRenderer::before_draw`: the new state and the child's new transform. */
  function ColumnStep(a: Acc, gap: U16, t: RawTransform): (r: Option<(Acc, RawTransform)>)
    ensures r.Some? <==> ColumnFits(a, gap, t)
    ensures r.Some? ==>
      r.value.0.parent.(width := a.parent.width, height := a.parent.height) == a.parent &&
      r.value.1.(x := t.x, y := t.y, px := t.px, py := t.py) == t
  {
    if !ColumnFits(a, gap, t) then None
    else
      var p := a.parent;
      var height := Max(p.height, t.height + t.py * 2);
      var child := t.(x := t.x + (p.x + a.offset), y := t.y + p.y);
      var offset := a.offset + (t.width + gap + t.px * 2);
      var child' := child.(px := child.px + p.px, py := child.py + p.py);
      var width := p.width + (child'.width + child'.px * 2 + gap);
      Some((Acc(p.(width := width, height := height), offset), child'))
  }

  /** The transform with its two axes exchanged. */
  function Transpose(t: RawTransform): RawTransform
  {
    t.(x := t.y, y := t.x, width := t.height, height := t.width, px := t.py, py := t.px)
  }

  function TransposeStep(r: Option<(Acc, RawTransform)>): Option<(Acc, RawTransform)>
  {
    match r
    case None => None
    case Some((a, t)) => Some((Acc(Transpose(a.parent), a.offset), Transpose(t)))
  }

  /** With the width rule corrected, a row is a column with the axes exchanged. */
  lemma RowIsTransposedColumn(a: Acc, gap: U16, t: RawTransform)
    ensures RowStep(a, gap, t) ==
      TransposeStep(ColumnStep(Acc(Transpose(a.parent), a.offset), gap, Transpose(t)))
  {
  }

  /** The defect of line 162: two children 1 wide and 5 high, with no gap and no
      padding, make the row 6 wide although no child is wider than 1. */
  lemma RowWidthCountsOffset()
    ensures
      var c := RawTransform(0, 0, 1, 5, 0, 0, 0);
      var first := RowStepAsWritten(Acc(Zero, 0), 0, c).value.0;
      RowStepAsWritten(first, 0, c).value.0.parent.width == 6 &&
      RowStep(RowStep(Acc(Zero, 0), 0, c).value.0, 0, c).value.0.parent.width == 1
  {
  }

  /** A whole renderer pass over the child transforms `ts`: the final state and the
      children's new transforms, or None where a step would panic. */
  function RowRun(a: Acc, gap: U16, ts: seq<RawTransform>): (r: Option<(Acc, seq<RawTransform>)>)
    ensures r.Some? ==> |r.value.1| == |ts|
    decreases |ts|
  {
    if ts == [] then Some((a, []))
    else
      match RowRun(a, gap, ts[..|ts| - 1])
      case None => None
      case Some((a', placed)) =>
        match RowStep(a', gap, ts[|ts| - 1])
        case None => None
        case Some((a'', child)) => Some((a'', placed + [child]))
  }

  function ColumnRun(a: Acc, gap: U16, ts: seq<RawTransform>): (r: Option<(Acc, seq<RawTransform>)>)
    ensures r.Some? ==> |r.value.1| == |ts|
    decreases |ts|
  {
    if ts == [] then Some((a, []))
    else
      match ColumnRun(a, gap, ts[..|ts| - 1])
      case None => None
      case Some((a', placed)) =>
        match ColumnStep(a', gap, ts[|ts| - 1])
        case None => None
        case Some((a'', child)) => Some((a'', placed + [child]))
  }

  /** The total room of the children in a row. */
  function RowSpan(ts: seq<RawTransform>, gap: U16): nat
  {
    if ts == [] then 0 else RowSpan(ts[..|ts| - 1], gap) + RowRoom(ts[|ts| - 1], gap)
  }

  /** The total room of the children in a column. */
  function ColumnSpan(ts: seq<RawTransform>, gap: U16): nat
  {
    if ts == [] then 0 else ColumnSpan(ts[..|ts| - 1], gap) + ColumnRoom(ts[|ts| - 1], gap)
  }

  /** The tallest child of a column, padding included. */
  function TallestChild(ts: seq<RawTransform>): nat
  {
    if ts == [] then 0 else Max(TallestChild(ts[..|ts| - 1]), ts[|ts| - 1].height + 2 * ts[|ts| - 1].py)
  }

  /** The widest child of a row, padding included. */
  function WidestChild(ts: seq<RawTransform>): nat
  {
    if ts == [] then 0 else Max(WidestChild(ts[..|ts| - 1]), ts[|ts| - 1].width + 2 * ts[|ts| - 1].px)
  }

  /** Where a row pass puts child `i`: `RowSpan` of the children before it below the
      parent's origin (plus the starting offset), padded by the parent's padding. */
  predicate RowPlaced(a: Acc, gap: U16, ts: seq<RawTransform>, i: nat, c: RawTransform)
    requires i < |ts|
  {
    c.x == ts[i].x + a.parent.x &&
    c.y == ts[i].y + a.parent.y + a.offset + RowSpan(ts[..i], gap) &&
    c.px == ts[i].px + a.parent.px && c.py == ts[i].py + a.parent.py
  }

  /** The state after a row pass over `ts` from `a`: the offset ends at the total
      room, the parent grows by that room plus the parent's vertical padding twice
      per child, because a child's `py` already includes it at line 172, and the
      parent is as wide as its widest child (or the starting width). */
  predicate RowLaidOut(a: Acc, gap: U16, ts: seq<RawTransform>, a': Acc, placed: seq<RawTransform>)
  {
    |placed| == |ts| && RowGrown(a, gap, ts, a') &&
    forall i :: 0 <= i < |ts| ==> RowPlaced(a, gap, ts, i, placed[i])
  }

  /** The accumulator part of `RowLaidOut`. */
  predicate RowGrown(a: Acc, gap: U16, ts: seq<RawTransform>, a': Acc)
  {
    a'.offset == a.offset + RowSpan(ts, gap) &&
    a'.parent.height == a.parent.height + RowSpan(ts, gap) + 2 * |ts| * a.parent.py &&
    a'.parent.width == Max(a.parent.width, WidestChild(ts)) &&
    a'.parent.(width := a.parent.width, height := a.parent.height) == a.parent
  }

  lemma RowGrownStep(a: Acc, gap: U16, ts: seq<RawTransform>, a1: Acc, t: RawTransform)
    requires RowGrown(a, gap, ts, a1) && RowStep(a1, gap, t).Some?
    ensures RowGrown(a, gap, ts + [t], RowStep(a1, gap, t).value.0)
  {
    var ts' := ts + [t];
    assert ts'[..|ts|] == ts;
    assert RowSpan(ts', gap) == RowSpan(ts, gap) + RowRoom(t, gap);
    assert WidestChild(ts') == Max(WidestChild(ts), t.width + 2 * t.px);
    assert 2 * |ts'| * a.parent.py == 2 * |ts| * a.parent.py + 2 * a.parent.py;
    RowStepMoves(a1, gap, t);
  }

  lemma RowLaidOutStep(a: Acc, gap: U16, ts: seq<RawTransform>, a1: Acc, placed: seq<RawTransform>,
                       t: RawTransform)
    requires RowLaidOut(a, gap, ts, a1, placed) && RowStep(a1, gap, t).Some?
    ensures RowLaidOut(a, gap, ts + [t], RowStep(a1, gap, t).value.0, placed + [RowStep(a1, gap, t).value.1])
  {
    var ts' := ts + [t];
    RowGrownStep(a, gap, ts, a1, t);
    var c := RowStep(a1, gap, t).value.1;
    RowStepMoves(a1, gap, t);
    assert ts'[..|ts|] == ts;
    assert RowPlaced(a, gap, ts', |ts|, c);
    RowPlacedKept(a, gap, ts, placed, t, c);
  }

  /** One row step moves the offset on by the child's room and grows the parent by
      that room plus its own vertical padding twice. */
  lemma RowStepMoves(a: Acc, gap: U16, t: RawTransform)
    requires RowStep(a, gap, t).Some?
    ensures var (a', c) := RowStep(a, gap, t).value;
      a'.offset == a.offset + RowRoom(t, gap) &&
      a'.parent.height == a.parent.height + RowRoom(t, gap) + 2 * a.parent.py &&
      c.x == t.x + a.parent.x && c.y == t.y + a.parent.y + a.offset &&
      c.px == t.px + a.parent.px && c.py == t.py + a.parent.py
  {
  }

  /** Appending a child leaves the places of the earlier ones as they were. */
  lemma RowPlacedKept(a: Acc, gap: U16, ts: seq<RawTransform>, placed: seq<RawTransform>,
                      t: RawTransform, c: RawTransform)
    requires |placed| == |ts| && forall i :: 0 <= i < |ts| ==> RowPlaced(a, gap, ts, i, placed[i])
    requires RowPlaced(a, gap, ts + [t], |ts|, c)
    ensures forall i :: 0 <= i < |ts| + 1 ==> RowPlaced(a, gap, ts + [t], i, (placed + [c])[i])
  {
    var ts' := ts + [t];
    var placed' := placed + [c];
    forall i | 0 <= i < |ts'|
      ensures RowPlaced(a, gap, ts', i, placed'[i])
    {
      if i < |ts| {
        assert ts'[..i] == ts[..i];
        assert RowPlaced(a, gap, ts, i, placed[i]);
      }
    }
  }

  /** A row pass stacks the children one under the other (`RowLaidOut`). */
  lemma {:induction false} RowPass(a: Acc, gap: U16, ts: seq<RawTransform>)
    requires RowRun(a, gap, ts).Some?
    ensures RowLaidOut(a, gap, ts, RowRun(a, gap, ts).value.0, RowRun(a, gap, ts).value.1)
    decreases |ts|
  {
    if ts == [] {
    } else {
      var init := ts[..|ts| - 1];
      RowPass(a, gap, init);
      var (a1, placed1) := RowRun(a, gap, init).value;
      RowLaidOutStep(a, gap, init, a1, placed1, ts[|ts| - 1]);
      assert init + [ts[|ts| - 1]] == ts;
    }
  }

  /** Where a column pass puts child `i`: `ColumnSpan` of the children before it to
      the right of the parent's origin (plus the starting offset). */
  predicate ColumnPlaced(a: Acc, gap: U16, ts: seq<RawTransform>, i: nat, c: RawTransform)
    requires i < |ts|
  {
    c.x == ts[i].x + a.parent.x + a.offset + ColumnSpan(ts[..i], gap) &&
    c.y == ts[i].y + a.parent.y &&
    c.px == ts[i].px + a.parent.px && c.py == ts[i].py + a.parent.py
  }

  /** The state after a column pass: as for a row with the axes exchanged, except
      that the height ends as the tallest child (or the starting height). */
  predicate ColumnLaidOut(a: Acc, gap: U16, ts: seq<RawTransform>, a': Acc, placed: seq<RawTransform>)
  {
    |placed| == |ts| && ColumnGrown(a, gap, ts, a') &&
    forall i :: 0 <= i < |ts| ==> ColumnPlaced(a, gap, ts, i, placed[i])
  }

  /** The accumulator part of `ColumnLaidOut`. */
  predicate ColumnGrown(a: Acc, gap: U16, ts: seq<RawTransform>, a': Acc)
  {
    a'.offset == a.offset + ColumnSpan(ts, gap) &&
    a'.parent.width == a.parent.width + ColumnSpan(ts, gap) + 2 * |ts| * a.parent.px &&
    a'.parent.height == Max(a.parent.height, TallestChild(ts)) &&
    a'.parent.(width := a.parent.width, height := a.parent.height) == a.parent
  }

  lemma ColumnGrownStep(a: Acc, gap: U16, ts: seq<RawTransform>, a1: Acc, t: RawTransform)
    requires ColumnGrown(a, gap, ts, a1) && ColumnStep(a1, gap, t).Some?
    ensures ColumnGrown(a, gap, ts + [t], ColumnStep(a1, gap, t).value.0)
  {
    var ts' := ts + [t];
    assert ts'[..|ts|] == ts;
    assert ColumnSpan(ts', gap) == ColumnSpan(ts, gap) + ColumnRoom(t, gap);
    assert TallestChild(ts') == Max(TallestChild(ts), t.height + 2 * t.py);
    assert 2 * |ts'| * a.parent.px == 2 * |ts| * a.parent.px + 2 * a.parent.px;
    ColumnStepMoves(a1, gap, t);
  }

  lemma ColumnLaidOutStep(a: Acc, gap: U16, ts: seq<RawTransform>, a1: Acc, placed: seq<RawTransform>,
                          t: RawTransform)
    requires ColumnLaidOut(a, gap, ts, a1, placed) && ColumnStep(a1, gap, t).Some?
    ensures ColumnLaidOut(a, gap, ts + [t], ColumnStep(a1, gap, t).value.0,
                          placed + [ColumnStep(a1, gap, t).value.1])
  {
    var ts' := ts + [t];
    ColumnGrownStep(a, gap, ts, a1, t);
    var c := ColumnStep(a1, gap, t).value.1;
    ColumnStepMoves(a1, gap, t);
    assert ts'[..|ts|] == ts;
    assert ColumnPlaced(a, gap, ts', |ts|, c);
    ColumnPlacedKept(a, gap, ts, placed, t, c);
  }

  lemma ColumnStepMoves(a: Acc, gap: U16, t: RawTransform)
    requires ColumnStep(a, gap, t).Some?
    ensures var (a', c) := ColumnStep(a, gap, t).value;
      a'.offset == a.offset + ColumnRoom(t, gap) &&
      a'.parent.width == a.parent.width + ColumnRoom(t, gap) + 2 * a.parent.px &&
      a'.parent.height == Max(a.parent.height, t.height + 2 * t.py) &&
      c.x == t.x + a.parent.x + a.offset && c.y == t.y + a.parent.y &&
      c.px == t.px + a.parent.px && c.py == t.py + a.parent.py
  {
  }

  lemma ColumnPlacedKept(a: Acc, gap: U16, ts: seq<RawTransform>, placed: seq<RawTransform>,
                         t: RawTransform, c: RawTransform)
    requires |placed| == |ts| && forall i :: 0 <= i < |ts| ==> ColumnPlaced(a, gap, ts, i, placed[i])
    requires ColumnPlaced(a, gap, ts + [t], |ts|, c)
    ensures forall i :: 0 <= i < |ts| + 1 ==> ColumnPlaced(a, gap, ts + [t], i, (placed + [c])[i])
  {
    var ts' := ts + [t];
    var placed' := placed + [c];
    forall i | 0 <= i < |ts'|
      ensures ColumnPlaced(a, gap, ts', i, placed'[i])
    {
      if i < |ts| {
        assert ts'[..i] == ts[..i];
        assert ColumnPlaced(a, gap, ts, i, placed[i]);
      }
    }
  }

  /** A column pass places the children side by side (`ColumnLaidOut`). */
  lemma {:induction false} ColumnPass(a: Acc, gap: U16, ts: seq<RawTransform>)
    requires ColumnRun(a, gap, ts).Some?
    ensures ColumnLaidOut(a, gap, ts, ColumnRun(a, gap, ts).value.0, ColumnRun(a, gap, ts).value.1)
    decreases |ts|
  {
    if ts == [] {
    } else {
      var init := ts[..|ts| - 1];
      ColumnPass(a, gap, init);
      var (a1, placed1) := ColumnRun(a, gap, init).value;
      ColumnLaidOutStep(a, gap, init, a1, placed1, ts[|ts| - 1]);
      assert init + [ts[|ts| - 1]] == ts;
    }
  }

  /** A pass over the first `n` children of a pass that completes also completes. */
  lemma {:induction false} RowRunPrefix(a: Acc, gap: U16, ts: seq<RawTransform>, n: nat)
    requires n <= |ts| && RowRun(a, gap, ts).Some?
    ensures RowRun(a, gap, ts[..n]).Some?
    decreases |ts|
  {
    if n < |ts| {
      RowRunPrefix(a, gap, ts[..|ts| - 1], n);
      assert ts[..|ts| - 1][..n] == ts[..n];
    } else {
      assert ts[..n] == ts;
    }
  }

  lemma {:induction false} ColumnRunPrefix(a: Acc, gap: U16, ts: seq<RawTransform>, n: nat)
    requires n <= |ts| && ColumnRun(a, gap, ts).Some?
    ensures ColumnRun(a, gap, ts[..n]).Some?
    decreases |ts|
  {
    if n < |ts| {
      ColumnRunPrefix(a, gap, ts[..|ts| - 1], n);
      assert ts[..|ts| - 1][..n] == ts[..n];
    } else {
      assert ts[..n] == ts;
    }
  }

  /** One more child of a row pass that completes. */
  lemma RowRunStep(a: Acc, gap: U16, ts: seq<RawTransform>, i: nat)
    requires i < |ts| && RowRun(a, gap, ts).Some?
    ensures RowRun(a, gap, ts[..i]).Some?
    ensures RowStep(RowRun(a, gap, ts[..i]).value.0, gap, ts[i]).Some?
    ensures var (a', placed) := RowRun(a, gap, ts[..i]).value;
      var (a'', child) := RowStep(a', gap, ts[i]).value;
      RowRun(a, gap, ts[..i + 1]) == Some((a'', placed + [child]))
  {
    RowRunPrefix(a, gap, ts, i + 1);
    assert ts[..i + 1][..i] == ts[..i];
  }

  lemma ColumnRunStep(a: Acc, gap: U16, ts: seq<RawTransform>, i: nat)
    requires i < |ts| && ColumnRun(a, gap, ts).Some?
    ensures ColumnRun(a, gap, ts[..i]).Some?
    ensures ColumnStep(ColumnRun(a, gap, ts[..i]).value.0, gap, ts[i]).Some?
    ensures var (a', placed) := ColumnRun(a, gap, ts[..i]).value;
      var (a'', child) := ColumnStep(a', gap, ts[i]).value;
      ColumnRun(a, gap, ts[..i + 1]) == Some((a'', placed + [child]))
  {
    ColumnRunPrefix(a, gap, ts, i + 1);
    assert ts[..i + 1][..i] == ts[..i];
  }

  /** A `RowRenderer`: the parent transform, the gap and the running offset. */
  class RowRenderer {
    var parent: RawTransform
    const gap: U16
    var offset: U16

    constructor (parent: RawTransform, gap: U16)
      ensures this.parent == parent && this.gap == gap && offset == 0
    {
      this.parent := parent;
      this.gap := gap;
      offset := 0;
    }

    /** `before_draw` for a child whose transform is `t`, with the width rule
        corrected; returns the child's new transform. */
    method BeforeDraw(t: RawTransform) returns (placed: RawTransform)
      requires RowFits(Acc(parent, offset), gap, t)
      modifies this
      ensures (Acc(parent, offset), placed) == RowStep(Acc(old(parent), old(offset)), gap, t).value
    {
      var c := t;
      parent := parent.(width := Max(parent.width, c.width + c.px * 2));
      c := c.(x := c.x + parent.x);
      c := c.(y := c.y + (parent.y + offset));
      offset := offset + (c.height + gap + c.py * 2);
      c := c.(px := c.px + parent.px);
      c := c.(py := c.py + parent.py);
      parent := parent.(height := parent.height + (c.height + c.py * 2 + gap));
      placed := c;
    }
  }

  /** A `ColumnRenderer`: the parent transform, the gap and the running offset. */
  class ColumnRenderer {
    var parent: RawTransform
    const gap: U16
    var offset: U16

    constructor (parent: RawTransform, gap: U16)
      ensures this.parent == parent && this.gap == gap && offset == 0
    {
      this.parent := parent;
      this.gap := gap;
      offset := 0;
    }

    /** `before_draw` for a child whose transform is `t`; returns the child's new transform. */
    method BeforeDraw(t: RawTransform) returns (placed: RawTransform)
      requires ColumnFits(Acc(parent, offset), gap, t)
      modifies this
      ensures (Acc(parent, offset), placed) == ColumnStep(Acc(old(parent), old(offset)), gap, t).value
    {
      var c := t;
      parent := parent.(height := Max(parent.height, c.height + c.py * 2));
      c := c.(x := c.x + (parent.x + offset));
      c := c.(y := c.y + parent.y);
      offset := offset + (c.width + gap + c.px * 2);
      c := c.(px := c.px + parent.px);
      c := c.(py := c.py + parent.py);
      parent := parent.(width := parent.width + (c.width + c.px * 2 + gap));
      placed := c;
    }
  }

  /** `FlexRow`: the gap, the children (widget identities) and the area it claims. */
  class FlexRow {
    var gap: U16
    var children: seq<nat>
    var renderWidth: U16
    var renderHeight: U16

    /** `FlexRow::new`. */
    constructor ()
      ensures gap == 0 && children == [] && renderWidth == 0 && renderHeight == 0
    {
      gap := 0;
      children := [];
      renderWidth := 0;
      renderHeight := 0;
    }

    /** `render`: claims the area recorded by the last `after_render`. */
    method Render(scope: RenderScopes.RenderScope)
      modifies scope
      ensures scope.transform == RenderScopes.Grow(old(scope.transform), renderWidth, renderHeight)
      ensures scope.renderStack == old(scope.renderStack)
      ensures scope.parentWidth == old(scope.parentWidth) && scope.parentHeight == old(scope.parentHeight)
      ensures scope.style == old(scope.style)
    {
      scope.UseArea(renderWidth, renderHeight);
    }

    /** `after_render`: `origin` is the transform derived from the parent scope and
        `ts[i]` the transform child `i` has when its `before_draw` runs. The row starts
        at height 0 and offset 0 and records the size the pass grew it to. */
    method AfterRender(origin: RawTransform, ts: seq<RawTransform>) returns (placed: seq<RawTransform>)
      requires |ts| == |children|
      requires RowRun(Acc(origin.(height := 0), 0), gap, ts).Some?
      modifies this
      ensures gap == old(gap) && children == old(children)
      ensures var (a, p) := RowRun(Acc(origin.(height := 0), 0), gap, ts).value;
        placed == p && renderWidth == a.parent.width && renderHeight == a.parent.height
    {
      ghost var a0 := Acc(origin.(height := 0), 0);
      var renderer := new RowRenderer(origin.(height := 0), gap);
      placed := [];
      var i := 0;
      while i < |ts|
        invariant 0 <= i <= |ts|
        invariant fresh(renderer) && renderer.gap == gap
        invariant gap == old(gap) && children == old(children)
        invariant RowRun(a0, gap, ts[..i]) == Some((Acc(renderer.parent, renderer.offset), placed))
      {
        RowRunStep(a0, gap, ts, i);
        var child := renderer.BeforeDraw(ts[i]);
        placed := placed + [child];
        i := i + 1;
      }
      assert ts[..i] == ts;
      renderWidth, renderHeight := renderer.parent.width, renderer.parent.height;
    }

    /** `draw_child`: appends the child. */
    method DrawChild(w: nat)
      modifies this
      ensures children == old(children) + [w]
      ensures gap == old(gap) && renderWidth == old(renderWidth) && renderHeight == old(renderHeight)
    {
      children := children + [w];
    }

    /** `undraw_child`: removes the first occurrence of `w`, if there is one. */
    method UndrawChild(w: nat)
      modifies this
      ensures w !in old(children) ==> children == old(children)
      ensures w in old(children) ==>
        var i := Position(old(children), w).value;
        children == old(children)[..i] + old(children)[i + 1..]
      ensures gap == old(gap) && renderWidth == old(renderWidth) && renderHeight == old(renderHeight)
    {
      match Position(children, w) {
        case Some(i) => children := children[..i] + children[i + 1..];
        case None =>
      }
    }
  }

  /** `FlexCol` of this file: like `FlexRow`, laid out with a `ColumnRenderer`
      from width 0; it has no `undraw_child`. */
  class FlexCol {
    var gap: U16
    var children: seq<nat>
    var renderWidth: U16
    var renderHeight: U16

    /** `FlexCol::new`. */
    constructor ()
      ensures gap == 0 && children == [] && renderWidth == 0 && renderHeight == 0
    {
      gap := 0;
      children := [];
      renderWidth := 0;
      renderHeight := 0;
    }

    /** `render`: claims the area recorded by the last `after_render`. */
    method Render(scope: RenderScopes.RenderScope)
      modifies scope
      ensures scope.transform == RenderScopes.Grow(old(scope.transform), renderWidth, renderHeight)
      ensures scope.renderStack == old(scope.renderStack)
      ensures scope.parentWidth == old(scope.parentWidth) && scope.parentHeight == old(scope.parentHeight)
      ensures scope.style == old(scope.style)
    {
      scope.UseArea(renderWidth, renderHeight);
    }

    /** `after_render`, as for `FlexRow` but starting at width 0. */
    method AfterRender(origin: RawTransform, ts: seq<RawTransform>) returns (placed: seq<RawTransform>)
      requires |ts| == |children|
      requires ColumnRun(Acc(origin.(width := 0), 0), gap, ts).Some?
      modifies this
      ensures gap == old(gap) && children == old(children)
      ensures var (a, p) := ColumnRun(Acc(origin.(width := 0), 0), gap, ts).value;
        placed == p && renderWidth == a.parent.width && renderHeight == a.parent.height
    {
      ghost var a0 := Acc(origin.(width := 0), 0);
      var renderer := new ColumnRenderer(origin.(width := 0), gap);
      placed := [];
      var i := 0;
      while i < |ts|
        invariant 0 <= i <= |ts|
        invariant fresh(renderer) && renderer.gap == gap
        invariant gap == old(gap) && children == old(children)
        invariant ColumnRun(a0, gap, ts[..i]) == Some((Acc(renderer.parent, renderer.offset), placed))
      {
        ColumnRunStep(a0, gap, ts, i);
        var child := renderer.BeforeDraw(ts[i]);
        placed := placed + [child];
        i := i + 1;
      }
      assert ts[..i] == ts;
      renderWidth, renderHeight := renderer.parent.width, renderer.parent.height;
    }

    /** `draw_child`: appends the child. */
    method DrawChild(w: nat)
      modifies this
      ensures children == old(children) + [w]
      ensures gap == old(gap) && renderWidth == old(renderWidth) && renderHeight == old(renderHeight)
    {
      children := children + [w];
    }
  }
}
