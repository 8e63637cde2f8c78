/** Per-widget render state (src/render_scope.rs): the widget's resolved
    transform, the stack of pending draw operations and the size of its
    parent. Sizes only ever grow while drawing. Terminal output (`draw`) is
    not part of this model, and neither is the scope's `Style`, which lives in
    a module that is not part of this model: it is an opaque identifier here. */
module RenderScopes {
  import opened Common
  import opened Transform
  import Utils

  /** `RenderMethod`. Colours are `u32` values. */
  datatype RenderMethod =
    | Text(text: string)
    | TextColored(text: string, color: nat)
    | Rectangle(width: U16, height: U16, color: nat)

  /** `Style::new()`. */
  const DefaultStyle: nat := 0

  /** Raising the size of `t` to at least `width` by `height`. */
  function Grow(t: RawTransform, width: U16, height: U16): (r: RawTransform)
    ensures r.width >= t.width && r.width >= width && (r.width == t.width || r.width == width)
    ensures r.height >= t.height && r.height >= height && (r.height == t.height || r.height == height)
    ensures r.(width := t.width, height := t.height) == t
  {
    t.(width := Max(t.width, width), height := Max(t.height, height))
  }

  /** Growing is order-independent, and growing twice by the same size is growing once. */
  lemma GrowCommutes(t: RawTransform, w1: U16, h1: U16, w2: U16, h2: U16)
    ensures Grow(Grow(t, w1, h1), w2, h2) == Grow(Grow(t, w2, h2), w1, h1)
    ensures Grow(Grow(t, w1, h1), w1, h1) == Grow(t, w1, h1)
  {
  }

  /** The measured size of a text fits `u16`, as `str_size` needs. */
  predicate Measurable(text: string)
  {
    Utils.Size(text).width <= U16_MAX && Utils.Size(text).height <= U16_MAX
  }

  /** A fallback for each axis whose size is still 0. */
  function OrElse(size: U16, fallback: U16): (r: U16)
    ensures size != 0 ==> r == size
    ensures size == 0 ==> r == fallback
  {
    if size == 0 then fallback else size
  }

  class RenderScope {
    var transform: RawTransform
    var renderStack: seq<RenderMethod>
    var parentWidth: U16
    var parentHeight: U16
    var style: nat

    /** `RenderScope::new`. */
    constructor ()
      ensures transform == Zero && renderStack == []
      ensures parentWidth == 0 && parentHeight == 0 && style == DefaultStyle
    {
      transform := Zero;
      renderStack := [];
      parentWidth := 0;
      parentHeight := 0;
      style := DefaultStyle;
    }

    /** `set_transform_raw`. */
    method SetTransformRaw(t: RawTransform)
      modifies this
      ensures transform == t
      ensures renderStack == old(renderStack) && style == old(style)
      ensures parentWidth == old(parentWidth) && parentHeight == old(parentHeight)
    {
      transform := t;
    }

    /** `draw_text`: pushes the text and raises the size to the text's size. */
    method DrawText(text: string)
      requires Measurable(text)
      modifies this
      ensures renderStack == old(renderStack) + [Text(text)]
      ensures transform == Grow(old(transform), Utils.Size(text).width, Utils.Size(text).height)
      ensures parentWidth == old(parentWidth) && parentHeight == old(parentHeight) && style == old(style)
    {
      renderStack := renderStack + [Text(text)];
      var w, h := Utils.StrSize(text);
      transform := transform.(width := Max(transform.width, w));
      transform := transform.(height := Max(transform.height, h));
    }

    /** `draw_text_colored`. */
    method DrawTextColored(text: string, color: nat)
      requires Measurable(text) && color < 0x1_0000_0000
      modifies this
      ensures renderStack == old(renderStack) + [TextColored(text, color)]
      ensures transform == Grow(old(transform), Utils.Size(text).width, Utils.Size(text).height)
      ensures parentWidth == old(parentWidth) && parentHeight == old(parentHeight) && style == old(style)
    {
      renderStack := renderStack + [TextColored(text, color)];
      var w, h := Utils.StrSize(text);
      transform := transform.(width := Max(transform.width, w));
      transform := transform.(height := Max(transform.height, h));
    }

    /** `draw_rect`. */
    method DrawRect(width: U16, height: U16, color: nat)
      requires color < 0x1_0000_0000
      modifies this
      ensures renderStack == old(renderStack) + [Rectangle(width, height, color)]
      ensures transform == Grow(old(transform), width, height)
      ensures parentWidth == old(parentWidth) && parentHeight == old(parentHeight) && style == old(style)
    {
      renderStack := renderStack + [Rectangle(width, height, color)];
      transform := transform.(width := Max(transform.width, width));
      transform := transform.(height := Max(transform.height, height));
    }

    /** `use_area`: claims space without drawing anything. */
    method UseArea(width: U16, height: U16)
      modifies this
      ensures transform == Grow(old(transform), width, height)
      ensures renderStack == old(renderStack)
      ensures parentWidth == old(parentWidth) && parentHeight == old(parentHeight) && style == old(style)
    {
      transform := transform.(width := Max(transform.width, width));
      transform := transform.(height := Max(transform.height, height));
    }

    /** `clear`: drops the stack, transform and style, keeps the parent size. */
    method Clear()
      modifies this
      ensures renderStack == [] && transform == Zero && style == DefaultStyle
      ensures parentWidth == old(parentWidth) && parentHeight == old(parentHeight)
    {
      renderStack := [];
      transform := Zero;
      style := DefaultStyle;
    }

    /** `get_size`. */
    function GetSize(): (r: (U16, U16))
      reads this
      ensures r.0 == transform.width && r.1 == transform.height
    {
      (transform.width, transform.height)
    }

    /** `get_size_or`: each axis falls back independently, only when it is 0. */
    function GetSizeOr(width: U16, height: U16): (r: (U16, U16))
      reads this
      ensures r.0 == OrElse(transform.width, width) && r.1 == OrElse(transform.height, height)
      ensures r.0 == 0 ==> width == 0
      ensures r.1 == 0 ==> height == 0
    {
      (if transform.width == 0 then width else transform.width,
       if transform.height == 0 then height else transform.height)
    }

    /** `get_size_or_parent`: the parent's size stands in for an unset axis. */
    function GetSizeOrParent(): (r: (U16, U16))
      reads this
      ensures r == GetSizeOr(parentWidth, parentHeight)
    {
      (if transform.width == 0 then parentWidth else transform.width,
       if transform.height == 0 then parentHeight else transform.height)
    }

    /** `get_parent_size`. */
    function GetParentSize(): (r: (U16, U16))
      reads this
      ensures r.0 == parentWidth && r.1 == parentHeight
    {
      (parentWidth, parentHeight)
    }

    /** `set_parent_size`: `get_parent_size` then reports the new pair. */
    method SetParentSize(width: U16, height: U16)
      modifies this
      ensures GetParentSize() == (width, height)
      ensures transform == old(transform) && renderStack == old(renderStack) && style == old(style)
    {
      parentWidth := width;
      parentHeight := height;
    }

    /** `set_style`. */
    method SetStyle(s: nat)
      modifies this
      ensures style == s
      ensures transform == old(transform) && renderStack == old(renderStack)
      ensures parentWidth == old(parentWidth) && parentHeight == old(parentHeight)
    {
      style := s;
    }
  }

  /** Once an axis has been given a non-zero size, no fallback shows through. */
  lemma SizedAxesIgnoreFallback(t: RawTransform, w: U16, h: U16, fw: U16, fh: U16)
    requires w > 0 && h > 0
    ensures OrElse(Grow(t, w, h).width, fw) == Grow(t, w, h).width >= w
    ensures OrElse(Grow(t, w, h).height, fh) == Grow(t, w, h).height >= h
  {
  }
}
