/** Layout plugins that adjust a drawing context's allocated area
    (src/view_plugins.rs): centring and sizing the allocation from the text
    drawn into the context. A `View` instruction makes the library run the
    view's closure in a fresh context and auto-size that; here the caller
    supplies the resulting size as `measure(area, view)`. */
module ViewPlugins {
  import opened Common
  import opened Render

  // ---------------------------------------------------------------------
  // Centring
  // ---------------------------------------------------------------------

  /** The offset that centres a span of `inner` cells within `outer` cells
      (the u16 subtraction of the library needs `inner <= outer`). */
  function CenterOffset(outer: U16, inner: U16): (r: U16)
    requires inner <= outer
  {
    (outer - inner) / 2
  }

  /** The centred span leaves equal margins, the far one larger by at most one cell. */
  lemma CenterOffsetBalanced(outer: U16, inner: U16)
    requires inner <= outer
    ensures var x := CenterOffset(outer, inner);
      x <= outer - inner - x <= x + 1 && x + inner <= outer
  {
  }

  /** `x_center` as written: it assigns `allocated.y` from the heights, the
      same statement as `y_center`; `x` is left as it was. */
  function XCentered(area: Area, bounds: Area): (r: Area)
    requires bounds.height <= area.height
  {
    bounds.(y := CenterOffset(area.height, bounds.height))
  }

  /** `x_center` as its documentation describes it: `allocated.x` from the widths. */
  function XCenteredIntended(area: Area, bounds: Area): (r: Area)
    requires bounds.width <= area.width
    ensures r.(x := bounds.x) == bounds
    ensures r.x <= area.width - bounds.width - r.x <= r.x + 1
  {
    CenterOffsetBalanced(area.width, bounds.width);
    bounds.(x := CenterOffset(area.width, bounds.width))
  }

  /** `y_center`: `allocated.y` centres the height, nothing else changes. */
  function YCentered(area: Area, bounds: Area): (r: Area)
    requires bounds.height <= area.height
    ensures r.(y := bounds.y) == bounds
    ensures r.y <= area.height - bounds.height - r.y <= r.y + 1
  {
    CenterOffsetBalanced(area.height, bounds.height);
    bounds.(y := CenterOffset(area.height, bounds.height))
  }

  /** `center`: both offsets, size unchanged. */
  function Centered(area: Area, bounds: Area): (r: Area)
    requires bounds.width <= area.width && bounds.height <= area.height
    ensures r.width == bounds.width && r.height == bounds.height
    ensures r.x <= area.width - bounds.width - r.x <= r.x + 1
    ensures r.y <= area.height - bounds.height - r.y <= r.y + 1
  {
    CenterOffsetBalanced(area.width, bounds.width);
    CenterOffsetBalanced(area.height, bounds.height);
    bounds.(x := CenterOffset(area.width, bounds.width), y := CenterOffset(area.height, bounds.height))
  }

  /** `center` is the documented `x_center` followed by `y_center`. */
  lemma CenteredComposes(area: Area, bounds: Area)
    requires bounds.width <= area.width && bounds.height <= area.height
    ensures Centered(area, bounds) == YCentered(area, XCenteredIntended(area, bounds))
  {
  }

  /** The defect of `x_center` as written: it is `y_center`, so an allocation
      4 wide at x = 0 in an area 10 wide stays at x = 0 instead of moving to 3. */
  lemma XCenterIsYCenter(area: Area, bounds: Area)
    requires bounds.height <= area.height
    ensures XCentered(area, bounds) == YCentered(area, bounds)
    ensures XCentered(area, bounds).x == bounds.x
    ensures var a, b := Area(0, 0, 10, 10), Area(0, 0, 4, 4);
      XCentered(a, b).x == 0 && XCenteredIntended(a, b).x == 3
  {
  }

  /** `x_center`, with the defect shown by `XCenterIsYCenter` corrected: the
      allocation's x centres its width. */
  method XCenter(ctx: DrawContext)
    requires ctx.bounds.width <= ctx.area.width
    modifies ctx
    ensures ctx.bounds == XCenteredIntended(old(ctx.area), old(ctx.bounds))
    ensures ctx.area == old(ctx.area) && ctx.drawing == old(ctx.drawing)
  {
    ctx.bounds := ctx.bounds.(x := (ctx.area.width - ctx.bounds.width) / 2);
  }

  method YCenter(ctx: DrawContext)
    requires ctx.bounds.height <= ctx.area.height
    modifies ctx
    ensures ctx.bounds == YCentered(old(ctx.area), old(ctx.bounds))
    ensures ctx.area == old(ctx.area) && ctx.drawing == old(ctx.drawing)
  {
    ctx.bounds := ctx.bounds.(y := (ctx.area.height - ctx.bounds.height) / 2);
  }

  method Center(ctx: DrawContext)
    requires ctx.bounds.width <= ctx.area.width && ctx.bounds.height <= ctx.area.height
    modifies ctx
    ensures ctx.bounds == Centered(old(ctx.area), old(ctx.bounds))
    ensures ctx.area == old(ctx.area) && ctx.drawing == old(ctx.drawing)
  {
    ctx.bounds := ctx.bounds.(x := (ctx.area.width - ctx.bounds.width) / 2);
    ctx.bounds := ctx.bounds.(y := (ctx.area.height - ctx.bounds.height) / 2);
  }

  // ---------------------------------------------------------------------
  // `str::lines`
  // ---------------------------------------------------------------------

  /** Drops one '\r' before a line's '\n' terminator. */
  function StripCr(line: string): (r: string)
    ensures |r| <= |line|
  {
    if |line| > 0 && line[|line| - 1] == '\r' then line[..|line| - 1] else line
  }

  function StripAll(lines: seq<string>): (r: seq<string>)
    ensures |r| == |lines|
    ensures forall k :: 0 <= k < |r| ==> r[k] == StripCr(lines[k])
  {
    if lines == [] then [] else StripAll(lines[..|lines| - 1]) + [StripCr(lines[|lines| - 1])]
  }

  /** `str::lines`: pieces between '\n's with a "\r\n" ending taken whole;
      the empty piece after a final '\n' is not a line, so "" has no lines. */
  function Lines(s: string): (r: seq<string>)
  {
    var pieces := Split(s, '\n');
    var last := pieces[|pieces| - 1];
    StripAll(pieces[..|pieces| - 1]) + (if last == [] then [] else [last])
  }

  /** One line per '\n', plus one for unterminated text after the last '\n'. */
  lemma LinesCount(s: string)
    ensures |Lines(s)| == Count('\n', s) + (if s != [] && s[|s| - 1] != '\n' then 1 else 0)
  {
    SplitCount(s, '\n');
    if s != [] {
      var p := s[..|s| - 1];
      assert p + [s[|s| - 1]] == s;
      SplitSnoc(p, s[|s| - 1], '\n');
    }
  }

  /** A final line break adds no line (when the text does not already end in
      a line break or a carriage return). */
  lemma LinesFinalBreak(s: string)
    requires s != [] && s[|s| - 1] != '\n' && s[|s| - 1] != '\r'
    ensures Lines(s + "\n") == Lines(s)
  {
    SplitSnoc(s, '\n', '\n');
    var pieces := Split(s, '\n');
    var last := pieces[|pieces| - 1];
    assert last != [] by {
      assert s[..|s| - 1] + [s[|s| - 1]] == s;
      SplitSnoc(s[..|s| - 1], s[|s| - 1], '\n');
    }
    var next := Split(s + "\n", '\n');
    assert next[..|next| - 1] == pieces;
    assert pieces == pieces[..|pieces| - 1] + [last];
    assert StripAll(pieces) == StripAll(pieces[..|pieces| - 1]) + [StripCr(last)];
  }

  // ---------------------------------------------------------------------
  // Auto-sizing
  // ---------------------------------------------------------------------

  /** `line.len() as u16`: the byte length, truncated to 16 bits. */
  function LineWidth(line: string): U16
  {
    ByteLen(line) % 0x1_0000
  }

  /** The widest line, or 0 for no lines. */
  function LinesWidth(lines: seq<string>): U16
  {
    if lines == [] then 0 else Max(LinesWidth(lines[..|lines| - 1]), LineWidth(lines[|lines| - 1]))
  }

  lemma {:induction false} LinesWidthBounds(lines: seq<string>)
    ensures forall k :: 0 <= k < |lines| ==> LineWidth(lines[k]) <= LinesWidth(lines)
    ensures lines != [] ==> exists k :: 0 <= k < |lines| && LineWidth(lines[k]) == LinesWidth(lines)
  {
    if lines != [] {
      var init := lines[..|lines| - 1];
      LinesWidthBounds(init);
      assert forall k :: 0 <= k < |init| ==> lines[k] == init[k];
      if LinesWidth(lines) != LineWidth(lines[|lines| - 1]) {
        assert LinesWidth(lines) == LinesWidth(init);
        assert init != [];
        var k :| 0 <= k < |init| && LineWidth(init[k]) == LinesWidth(init);
        assert LineWidth(lines[k]) == LinesWidth(lines);
      }
    }
  }

  /** The line count of every Text instruction fits the `u16` height counter. */
  predicate CountableLines(drawing: seq<DrawInstruction>)
  {
    forall k :: 0 <= k < |drawing| && drawing[k].Text? ==> |Lines(drawing[k].text)| <= U16_MAX
  }

  predicate NoViews(drawing: seq<DrawInstruction>)
  {
    forall k :: 0 <= k < |drawing| ==> !drawing[k].View?
  }

  /** The allocation `size_auto` leaves after the instructions of `drawing`. */
  function SizeAutoOf(drawing: seq<DrawInstruction>, b: Area, measure: (Area, nat) -> (U16, U16)): Area
    requires CountableLines(drawing)
  {
    if drawing == [] then b
    else
      var before := SizeAutoOf(drawing[..|drawing| - 1], b, measure);
      match drawing[|drawing| - 1]
      case Text(_, text) =>
        before.(width := Max(before.width, LinesWidth(Lines(text))), height := |Lines(text)|)
      case View(area, view) =>
        before.(width := measure(area, view).0, height := measure(area, view).1)
      case Child(_, _) => before
  }

  /** The allocation `width_auto` leaves: the height is never touched. */
  function WidthAutoOf(drawing: seq<DrawInstruction>, b: Area, measure: (Area, nat) -> (U16, U16)): (r: Area)
    ensures r.(width := b.width) == b
  {
    if drawing == [] then b
    else
      var before := WidthAutoOf(drawing[..|drawing| - 1], b, measure);
      match drawing[|drawing| - 1]
      case Text(_, text) => before.(width := Max(before.width, LinesWidth(Lines(text))))
      case View(area, view) => before.(width := measure(area, view).0)
      case Child(_, _) => before
  }

  /** The allocation `height_auto` leaves: the width is never touched. */
  function HeightAutoOf(drawing: seq<DrawInstruction>, b: Area, measure: (Area, nat) -> (U16, U16)): (r: Area)
    requires CountableLines(drawing)
    ensures r.(height := b.height) == b
  {
    if drawing == [] then b
    else
      var before := HeightAutoOf(drawing[..|drawing| - 1], b, measure);
      match drawing[|drawing| - 1]
      case Text(_, text) => before.(height := |Lines(text)|)
      case View(area, view) => before.(height := measure(area, view).1)
      case Child(_, _) => before
  }

  lemma CountablePrefix(drawing: seq<DrawInstruction>, i: nat)
    requires CountableLines(drawing) && i <= |drawing|
    ensures CountableLines(drawing[..i])
  {
    assert forall k :: 0 <= k < i ==> drawing[..i][k] == drawing[k];
  }

  /** `size_auto` sizes each axis exactly as the single-axis plugins do:
      its width is `width_auto`'s and its height is `height_auto`'s. */
  lemma {:induction false} SizeAutoSplits(drawing: seq<DrawInstruction>, b: Area, measure: (Area, nat) -> (U16, U16))
    requires CountableLines(drawing)
    ensures SizeAutoOf(drawing, b, measure).width == WidthAutoOf(drawing, b, measure).width
    ensures SizeAutoOf(drawing, b, measure).height == HeightAutoOf(drawing, b, measure).height
    ensures SizeAutoOf(drawing, b, measure).x == b.x && SizeAutoOf(drawing, b, measure).y == b.y
  {
    if drawing != [] {
      CountablePrefix(drawing, |drawing| - 1);
      SizeAutoSplits(drawing[..|drawing| - 1], b, measure);
    }
  }

  /** The heights `height_auto` computes do not depend on the starting width. */
  lemma {:induction false} HeightAutoIgnoresWidth(drawing: seq<DrawInstruction>, b: Area, w: U16, measure: (Area, nat) -> (U16, U16))
    requires CountableLines(drawing)
    ensures HeightAutoOf(drawing, b.(width := w), measure).height == HeightAutoOf(drawing, b, measure).height
  {
    if drawing != [] {
      CountablePrefix(drawing, |drawing| - 1);
      HeightAutoIgnoresWidth(drawing[..|drawing| - 1], b, w, measure);
    }
  }

  /** Hence `size_auto` is `width_auto` followed by `height_auto`. */
  lemma SizeAutoIsWidthThenHeight(drawing: seq<DrawInstruction>, b: Area, measure: (Area, nat) -> (U16, U16))
    requires CountableLines(drawing)
    ensures SizeAutoOf(drawing, b, measure) == HeightAutoOf(drawing, WidthAutoOf(drawing, b, measure), measure)
  {
    SizeAutoSplits(drawing, b, measure);
    var wb := WidthAutoOf(drawing, b, measure);
    assert wb == b.(width := wb.width);
    HeightAutoIgnoresWidth(drawing, b, wb.width, measure);
  }

  /** Without views, the width `size_auto` reaches covers every line of every text. */
  lemma {:induction false} SizeAutoCoversLines(drawing: seq<DrawInstruction>, b: Area, measure: (Area, nat) -> (U16, U16))
    requires CountableLines(drawing) && NoViews(drawing)
    ensures SizeAutoOf(drawing, b, measure).width >= b.width
    ensures forall k, j :: 0 <= k < |drawing| && drawing[k].Text? && 0 <= j < |Lines(drawing[k].text)| ==>
      LineWidth(Lines(drawing[k].text)[j]) <= SizeAutoOf(drawing, b, measure).width
  {
    if drawing != [] {
      var n := |drawing| - 1;
      var init := drawing[..n];
      SizeAutoPrefix(drawing, n, b, measure);
      assert drawing[..n + 1] == drawing;
      assert NoViews(init) by {
        assert forall k :: 0 <= k < n ==> init[k] == drawing[k];
      }
      SizeAutoCoversLines(init, b, measure);
      var after := SizeAutoOf(drawing, b, measure);
      if drawing[n].Text? {
        LastTextCovers(drawing, drawing[n].text, b, measure);
      }
      forall k, j | 0 <= k < n && drawing[k].Text? && 0 <= j < |Lines(drawing[k].text)|
        ensures LineWidth(Lines(drawing[k].text)[j]) <= after.width
      {
        assert drawing[k] == init[k];
      }
    }
  }

  lemma LastTextCovers(drawing: seq<DrawInstruction>, text: string, b: Area, measure: (Area, nat) -> (U16, U16))
    requires CountableLines(drawing) && drawing != [] && drawing[|drawing| - 1].Text?
    requires text == drawing[|drawing| - 1].text
    ensures forall j :: 0 <= j < |Lines(text)| ==> LineWidth(Lines(text)[j]) <= SizeAutoOf(drawing, b, measure).width
  {
    LinesWidthBounds(Lines(text));
  }

  /** The height after a final Text is that text's line count: the last Text wins. */
  lemma LastTextWins(drawing: seq<DrawInstruction>, p: Point, text: string, b: Area, measure: (Area, nat) -> (U16, U16))
    requires CountableLines(drawing + [Text(p, text)])
    ensures CountableLines(drawing)
    ensures SizeAutoOf(drawing + [Text(p, text)], b, measure).height == |Lines(text)|
    ensures HeightAutoOf(drawing + [Text(p, text)], b, measure).height == |Lines(text)|
  {
    var d := drawing + [Text(p, text)];
    CountablePrefix(d, |drawing|);
    assert d[..|drawing|] == drawing;
  }

  /** A trailing Child instruction changes nothing for any of the three plugins. */
  lemma ChildIgnored(drawing: seq<DrawInstruction>, p: Point, f: Frame, b: Area, measure: (Area, nat) -> (U16, U16))
    requires CountableLines(drawing + [Child(p, f)])
    ensures CountableLines(drawing)
    ensures SizeAutoOf(drawing + [Child(p, f)], b, measure) == SizeAutoOf(drawing, b, measure)
    ensures WidthAutoOf(drawing + [Child(p, f)], b, measure) == WidthAutoOf(drawing, b, measure)
    ensures HeightAutoOf(drawing + [Child(p, f)], b, measure) == HeightAutoOf(drawing, b, measure)
  {
    var d := drawing + [Child(p, f)];
    CountablePrefix(d, |drawing|);
    assert d[..|drawing|] == drawing;
  }

  /** `size_auto`: one pass over the instructions; a Text raises the width to
      its widest line and sets the height to its line count. */
  method SizeAuto(ctx: DrawContext, measure: (Area, nat) -> (U16, U16))
    requires CountableLines(ctx.drawing)
    modifies ctx
    ensures ctx.area == old(ctx.area) && ctx.drawing == old(ctx.drawing)
    ensures ctx.bounds == SizeAutoOf(ctx.drawing, old(ctx.bounds), measure)
  {
    var drawing := ctx.drawing;
    var i := 0;
    while i < |drawing|
      invariant 0 <= i <= |drawing|
      invariant ctx.drawing == drawing && ctx.area == old(ctx.area)
      invariant ctx.bounds == SizeAutoOf(drawing[..i], old(ctx.bounds), measure)
    {
      SizeAutoPrefix(drawing, i, old(ctx.bounds), measure);
      match drawing[i] {
      case Text(_, text) => {
        SizeAutoText(ctx, text);
      }
      case View(area, view) => {
        var (w, h) := measure(area, view);
        ctx.bounds := ctx.bounds.(width := w);
        ctx.bounds := ctx.bounds.(height := h);
      }
      case Child(_, _) => {
      }
      }
      i := i + 1;
    }
    assert drawing[..i] == drawing;
  }

  /** One step of `SizeAutoOf`: the allocation after `i + 1` instructions. */
  lemma SizeAutoPrefix(drawing: seq<DrawInstruction>, i: nat, b: Area, measure: (Area, nat) -> (U16, U16))
    requires CountableLines(drawing) && i < |drawing|
    ensures CountableLines(drawing[..i]) && CountableLines(drawing[..i + 1])
    ensures drawing[i].Text? ==> |Lines(drawing[i].text)| <= U16_MAX
    ensures var before := SizeAutoOf(drawing[..i], b, measure);
      SizeAutoOf(drawing[..i + 1], b, measure) ==
        match drawing[i]
        case Text(_, text) => before.(width := Max(before.width, LinesWidth(Lines(text))), height := |Lines(text)|)
        case View(area, view) => before.(width := measure(area, view).0, height := measure(area, view).1)
        case Child(_, _) => before
  {
    CountablePrefix(drawing, i);
    CountablePrefix(drawing, i + 1);
    assert drawing[..i + 1][..i] == drawing[..i];
  }

  /** The inner loop of `size_auto` over the lines of one text. */
  method SizeAutoText(ctx: DrawContext, text: string)
    requires |Lines(text)| <= U16_MAX
    modifies ctx
    ensures ctx.area == old(ctx.area) && ctx.drawing == old(ctx.drawing)
    ensures ctx.bounds == old(ctx.bounds).(width := Max(old(ctx.bounds).width, LinesWidth(Lines(text))), height := |Lines(text)|)
  {
    var lines := Lines(text);
    var start := ctx.bounds;
    var height: U16 := 0;
    var j := 0;
    while j < |lines|
      invariant 0 <= j <= |lines| && height == j
      invariant ctx.drawing == old(ctx.drawing) && ctx.area == old(ctx.area)
      invariant ctx.bounds == start.(width := Max(start.width, LinesWidth(lines[..j])))
    {
      WidthStep(lines, j, start.width);
      ctx.bounds := ctx.bounds.(width := Max(ctx.bounds.width, LineWidth(lines[j])));
      height := height + 1;
      j := j + 1;
    }
    assert lines[..j] == lines;
    ctx.bounds := ctx.bounds.(height := height);
  }

  /** `width_auto`. */
  method WidthAuto(ctx: DrawContext, measure: (Area, nat) -> (U16, U16))
    modifies ctx
    ensures ctx.area == old(ctx.area) && ctx.drawing == old(ctx.drawing)
    ensures ctx.bounds == WidthAutoOf(ctx.drawing, old(ctx.bounds), measure)
    ensures ctx.bounds.height == old(ctx.bounds.height)
  {
    var drawing := ctx.drawing;
    var i := 0;
    while i < |drawing|
      invariant 0 <= i <= |drawing|
      invariant ctx.drawing == drawing && ctx.area == old(ctx.area)
      invariant ctx.bounds == WidthAutoOf(drawing[..i], old(ctx.bounds), measure)
    {
      WidthAutoPrefix(drawing, i, old(ctx.bounds), measure);
      match drawing[i] {
      case Text(_, text) => {
        WidenToLines(ctx, Lines(text));
      }
      case View(area, view) => {
        ctx.bounds := ctx.bounds.(width := measure(area, view).0);
      }
      case Child(_, _) => {
      }
      }
      i := i + 1;
    }
    assert drawing[..i] == drawing;
  }

  /** One step of `WidthAutoOf`: the allocation after `i + 1` instructions. */
  lemma WidthAutoPrefix(drawing: seq<DrawInstruction>, i: nat, b: Area, measure: (Area, nat) -> (U16, U16))
    requires i < |drawing|
    ensures var before := WidthAutoOf(drawing[..i], b, measure);
      WidthAutoOf(drawing[..i + 1], b, measure) ==
        match drawing[i]
        case Text(_, text) => before.(width := Max(before.width, LinesWidth(Lines(text))))
        case View(area, view) => before.(width := measure(area, view).0)
        case Child(_, _) => before
  {
    assert drawing[..i + 1][..i] == drawing[..i];
  }

  /** The inner loop of `width_auto` over the lines of one text. */
  method WidenToLines(ctx: DrawContext, lines: seq<string>)
    modifies ctx
    ensures ctx.area == old(ctx.area) && ctx.drawing == old(ctx.drawing)
    ensures ctx.bounds == old(ctx.bounds).(width := Max(old(ctx.bounds).width, LinesWidth(lines)))
  {
    var start := ctx.bounds;
    var j := 0;
    while j < |lines|
      invariant 0 <= j <= |lines|
      invariant ctx.drawing == old(ctx.drawing) && ctx.area == old(ctx.area)
      invariant ctx.bounds == start.(width := Max(start.width, LinesWidth(lines[..j])))
    {
      WidthStep(lines, j, start.width);
      ctx.bounds := ctx.bounds.(width := Max(ctx.bounds.width, LineWidth(lines[j])));
      j := j + 1;
    }
    assert lines[..j] == lines;
  }

  /** Widening by one more line. */
  lemma WidthStep(lines: seq<string>, j: nat, w: U16)
    requires j < |lines|
    ensures Max(Max(w, LinesWidth(lines[..j])), LineWidth(lines[j])) == Max(w, LinesWidth(lines[..j + 1]))
  {
    assert lines[..j + 1][..j] == lines[..j];
  }

  /** `height_auto`. */
  method HeightAuto(ctx: DrawContext, measure: (Area, nat) -> (U16, U16))
    requires CountableLines(ctx.drawing)
    modifies ctx
    ensures ctx.area == old(ctx.area) && ctx.drawing == old(ctx.drawing)
    ensures ctx.bounds == HeightAutoOf(ctx.drawing, old(ctx.bounds), measure)
    ensures ctx.bounds.width == old(ctx.bounds.width)
  {
    var drawing := ctx.drawing;
    var i := 0;
    while i < |drawing|
      invariant 0 <= i <= |drawing|
      invariant ctx.drawing == drawing && ctx.area == old(ctx.area)
      invariant ctx.bounds == HeightAutoOf(drawing[..i], old(ctx.bounds), measure)
    {
      HeightAutoPrefix(drawing, i, old(ctx.bounds), measure);
      match drawing[i] {
      case Text(_, text) => {
        var lines := Lines(text);
        var height: U16 := 0;
        var j := 0;
        while j < |lines|
          invariant 0 <= j <= |lines| && height == j
        {
          height := height + 1;
          j := j + 1;
        }
        ctx.bounds := ctx.bounds.(height := height);
      }
      case View(area, view) => {
        ctx.bounds := ctx.bounds.(height := measure(area, view).1);
      }
      case Child(_, _) => {
      }
      }
      i := i + 1;
    }
    assert drawing[..i] == drawing;
  }

  /** One step of `HeightAutoOf`: the allocation after `i + 1` instructions. */
  lemma HeightAutoPrefix(drawing: seq<DrawInstruction>, i: nat, b: Area, measure: (Area, nat) -> (U16, U16))
    requires CountableLines(drawing) && i < |drawing|
    ensures CountableLines(drawing[..i]) && CountableLines(drawing[..i + 1])
    ensures drawing[i].Text? ==> |Lines(drawing[i].text)| <= U16_MAX
    ensures var before := HeightAutoOf(drawing[..i], b, measure);
      HeightAutoOf(drawing[..i + 1], b, measure) ==
        match drawing[i]
        case Text(_, text) => before.(height := |Lines(text)|)
        case View(area, view) => before.(height := measure(area, view).1)
        case Child(_, _) => before
  {
    CountablePrefix(drawing, i);
    CountablePrefix(drawing, i + 1);
    assert drawing[..i + 1][..i] == drawing[..i];
  }
}
