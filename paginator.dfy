/** The paginator (`Paginator`): shows one child at a time; Tab and BackTab cycle
    through the children. */
module Paginator {
  import opened Common
  import opened Keys
  import RenderScopes

  /** The index after Tab among `len` children: the next one, wrapping to 0. */
  function NextIndex(index: nat, len: nat): (r: nat)
    requires index < USIZE_MAX
    ensures index < len ==> r == (index + 1) % len
    ensures index + 1 >= len ==> r == 0
  {
    WrapSteps(index, len);
    if index + 1 < len then index + 1 else 0
  }

  /** The index after BackTab: the previous one, wrapping from 0 to the last child;
      with no children an index of 0 stays, and any other index still steps back. */
  function PreviousIndex(index: nat, len: nat): (r: nat)
    ensures index < len ==> r == (index + len - 1) % len
    ensures index > 0 ==> r == index - 1
    ensures index == 0 && len == 0 ==> r == 0
  {
    WrapSteps(index, len);
    if index > 0 then index - 1 else if len > 0 then len - 1 else index
  }

  /** Tab and BackTab keep the index on a child whenever there is one. */
  lemma CyclingStaysInRange(index: nat, len: nat)
    requires index < len && index < USIZE_MAX
    ensures NextIndex(index, len) < len && PreviousIndex(index, len) < len
  {
  }

  /** BackTab undoes Tab, and Tab undoes BackTab, on an index that is on a child. */
  lemma TabBackTabInverse(index: nat, len: nat)
    requires index < len && index < USIZE_MAX
    ensures PreviousIndex(NextIndex(index, len), len) == index
    ensures PreviousIndex(index, len) < USIZE_MAX ==> NextIndex(PreviousIndex(index, len), len) == index
  {
  }

  /** The fields of a `Paginator`; children are widget identities. */
  class Paginator {
    var children: seq<nat>
    var index: nat

    /** `Paginator::new`: no children, index 0. */
    constructor ()
      ensures children == [] && index == 0
    {
      children := [];
      index := 0;
    }

    /** `event`: Tab and BackTab move the index as `NextIndex` and `PreviousIndex` say (`index + 1`
        must not overflow `usize`); every other event leaves it. */
    method Event(ev: AppEvent)
      requires index < USIZE_MAX
      modifies this
      ensures children == old(children)
      ensures CodeOf(ev) == Some(Tab) ==> index == NextIndex(old(index), |children|)
      ensures CodeOf(ev) == Some(BackTab) ==> index == PreviousIndex(old(index), |children|)
      ensures CodeOf(ev) != Some(Tab) && CodeOf(ev) != Some(BackTab) ==> index == old(index)
    {
      if ev.Terminal? && ev.e.Key? {
        var cl := |children|;
        match ev.e.key.code {
          case Tab =>
            if index + 1 < cl {
              index := index + 1;
            } else {
              index := 0;
            }
          case BackTab =>
            if index > 0 {
              index := index - 1;
            } else if cl > 0 {
              index := cl - 1;
            }
          case _ =>
        }
      }
    }

    /** `render`: the child at the index, if there is one, is the widget drawn, and
        the paginator then claims its size (or its parent's, per axis); with the index
        out of range nothing is drawn or claimed. */
    method Render(scope: RenderScopes.RenderScope) returns (shown: Option<nat>)
      modifies scope
      ensures index < |children| ==> shown == Some(children[index])
      ensures index < |children| ==>
        var (w, h) := old(scope.GetSizeOrParent());
        scope.transform == RenderScopes.Grow(old(scope.transform), w, h)
      ensures index >= |children| ==> shown.None? && scope.transform == old(scope.transform)
      ensures scope.renderStack == old(scope.renderStack)
      ensures scope.parentWidth == old(scope.parentWidth) && scope.parentHeight == old(scope.parentHeight)
      ensures scope.style == old(scope.style)
    {
      if index < |children| {
        shown := Some(children[index]);
        var (w, h) := scope.GetSizeOrParent();
        scope.UseArea(w, h);
      } else {
        shown := None;
      }
    }

    /** `draw_child`: appends the child. */
    method DrawChild(w: nat)
      modifies this
      ensures children == old(children) + [w] && index == old(index)
    {
      children := children + [w];
    }
  }
}
