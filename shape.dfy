/** The box outlines of `src/elements/shape.rs`: `RoundedOutline` and `Outline`
    fill the scope's size (or the parent's) with a frame of box-drawing
    characters, drawn as one text. The two differ only in their corners. */
module Shape {
  import opened Common
  import Utils
  import RenderScopes

  datatype Corners = Corners(topLeft: char, topRight: char, bottomLeft: char, bottomRight: char)

  const Rounded := Corners('╭', '╮', '╰', '╯')
  const Square := Corners('┌', '┐', '└', '┘')
  const Horizontal := '─'
  const Vertical := '│'

  /** A row of the frame: `left`, then `inner` copies of `fill`, then `right`. */
  function Row(left: char, fill: char, inner: nat, right: char): (r: string)
    ensures |r| == inner + 2 && r[0] == left && r[|r| - 1] == right
    ensures forall i :: 0 < i < |r| - 1 ==> r[i] == fill
  {
    RepeatChar(fill, inner);
    [left] + Repeat([fill], inner) + [right]
  }

  lemma {:induction false} RepeatChar(ch: char, n: nat)
    ensures forall i :: 0 <= i < n ==> Repeat([ch], n)[i] == ch
    decreases n
  {
    if n > 0 {
      RepeatChar(ch, n - 1);
    }
  }

  function Top(c: Corners, w: nat): string requires w >= 2 { Row(c.topLeft, Horizontal, w - 2, c.topRight) }
  function Side(w: nat): string requires w >= 2 { Row(Vertical, ' ', w - 2, Vertical) }
  function Bottom(c: Corners, w: nat): string requires w >= 2 { Row(c.bottomLeft, Horizontal, w - 2, c.bottomRight) }

  /** The text drawn for a `w` by `h` frame, built as the `format!` does: the top
      row, `h - 2` copies of a line break and a side row, a line break and the
      bottom row. */
  function Border(c: Corners, w: nat, h: nat): string
    requires w > 2 && h > 2
  {
    Top(c, w) + Repeat("\n" + Side(w), h - 2) + "\n" + Bottom(c, w)
  }

  /** `n` copies of `s`, as a sequence of lines. */
  function Copies(s: string, n: nat): (r: seq<string>)
    ensures |r| == n && forall k :: 0 <= k < n ==> r[k] == s
  {
    if n == 0 then [] else Copies(s, n - 1) + [s]
  }

  /** The frame's lines: the top row, `h - 2` side rows and the bottom row. */
  function Rows(c: Corners, w: nat, h: nat): (r: seq<string>)
    requires w > 2 && h > 2
    ensures |r| == h && r[0] == Top(c, w) && r[h - 1] == Bottom(c, w)
    ensures forall k :: 0 < k < h - 1 ==> r[k] == Side(w)
  {
    [Top(c, w)] + Copies(Side(w), h - 2) + [Bottom(c, w)]
  }

  lemma {:induction false} JoinCopies(first: string, s: string, n: nat)
    ensures Join([first] + Copies(s, n), '\n') == first + Repeat("\n" + s, n)
    decreases n
  {
    if n == 0 {
      assert [first] + Copies(s, 0) == [first];
    } else {
      var front := [first] + Copies(s, n - 1);
      JoinCopies(first, s, n - 1);
      JoinSnoc(front, s, '\n');
      assert [first] + Copies(s, n) == front + [s];
      AppendLine(first, Repeat("\n" + s, n - 1), s);
    }
  }

  lemma AppendLine(first: string, r: string, s: string)
    ensures first + r + ['\n'] + s == first + (r + ("\n" + s))
  {
    assert "\n" + s == ['\n'] + s;
  }

  /** The text is the frame's rows joined by line breaks. */
  lemma BorderIsRows(c: Corners, w: nat, h: nat)
    requires w > 2 && h > 2
    ensures Border(c, w, h) == Join(Rows(c, w, h), '\n')
  {
    var rows := Rows(c, w, h);
    var front := [Top(c, w)] + Copies(Side(w), h - 2);
    assert rows == front + [Bottom(c, w)];
    assert rows[..|rows| - 1] == front;
    JoinCopies(Top(c, w), Side(w), h - 2);
  }

  lemma RowLacksBreak(left: char, fill: char, inner: nat, right: char)
    requires left != '\n' && fill != '\n' && right != '\n'
    ensures Lacks(Row(left, fill, inner, right), '\n')
  {
  }

  /** The frame has exactly `h` lines, each `w` characters long: the top and bottom
      rows with their corners and horizontal bars, and side rows of spaces
      between vertical bars. */
  lemma BorderLines(c: Corners, w: nat, h: nat)
    requires w > 2 && h > 2
    requires c.topLeft != '\n' && c.topRight != '\n' && c.bottomLeft != '\n' && c.bottomRight != '\n'
    ensures Split(Border(c, w, h), '\n') == Rows(c, w, h)
    ensures |Split(Border(c, w, h), '\n')| == h
    ensures forall k :: 0 <= k < h ==> |Split(Border(c, w, h), '\n')[k]| == w
  {
    var rows := Rows(c, w, h);
    RowLacksBreak(c.topLeft, Horizontal, w - 2, c.topRight);
    RowLacksBreak(Vertical, ' ', w - 2, Vertical);
    RowLacksBreak(c.bottomLeft, Horizontal, w - 2, c.bottomRight);
    assert forall k :: 0 <= k < |rows| ==> Lacks(rows[k], '\n');
    BorderIsRows(c, w, h);
    JoinSplit(rows, '\n');
  }

  lemma {:induction false} ByteLenRepeat(ch: char, n: nat)
    ensures ByteLen(Repeat([ch], n)) == n * Utf8Len(ch)
    decreases n
  {
    if n > 0 {
      var u := Utf8Len(ch);
      ByteLenRepeat(ch, n - 1);
      ByteLenAppend(Repeat([ch], n - 1), [ch]);
      assert ByteLen([ch]) == u by {
        assert [ch][..0] == [];
      }
      assert n * u == (n - 1) * u + u;
    }
  }

  lemma ByteLenRow(left: char, fill: char, inner: nat, right: char)
    ensures ByteLen(Row(left, fill, inner, right)) == Utf8Len(left) + inner * Utf8Len(fill) + Utf8Len(right)
  {
    ByteLenRepeat(fill, inner);
    ByteLenAppend([left] + Repeat([fill], inner), [right]);
    ByteLenAppend([left], Repeat([fill], inner));
    assert [left][..0] == [] && [right][..0] == [];
  }

  /** Box-drawing characters take three bytes each, and `str_size` counts bytes: a
      `w` by `h` frame measures `3 * w` by `h`. */
  lemma BorderSize(c: Corners, w: nat, h: nat)
    requires w > 2 && h > 2
    requires c == Rounded || c == Square
    ensures Utils.Size(Border(c, w, h)) == Utils.Extent(3 * w, h)
  {
    BorderLines(c, w, h);
    var rows := Rows(c, w, h);
    var ws := Utils.Widths(rows);
    RowBytes(c, w);
    forall k | 0 <= k < h ensures ws[k] <= 3 * w {
      assert ws[k] == ByteLen(rows[k]);
    }
    assert ws[0] == 3 * w;
    SeqMaxReached(ws, 3 * w);
  }

  /** The top and bottom rows take `3 * w` bytes, a side row `w + 4`. */
  lemma RowBytes(c: Corners, w: nat)
    requires w > 2
    requires c == Rounded || c == Square
    ensures ByteLen(Top(c, w)) == 3 * w && ByteLen(Bottom(c, w)) == 3 * w
    ensures ByteLen(Side(w)) == w + 4
  {
    var inner := w - 2;
    assert Utf8Len(c.topLeft) == 3 && Utf8Len(c.topRight) == 3;
    assert Utf8Len(c.bottomLeft) == 3 && Utf8Len(c.bottomRight) == 3;
    assert Utf8Len(Horizontal) == 3 && Utf8Len(Vertical) == 3 && Utf8Len(' ') == 1;
    ByteLenRow(c.topLeft, Horizontal, inner, c.topRight);
    assert inner * Utf8Len(Horizontal) == 3 * inner;
    ByteLenRow(Vertical, ' ', inner, Vertical);
    assert inner * Utf8Len(' ') == inner;
    ByteLenRow(c.bottomLeft, Horizontal, inner, c.bottomRight);
  }

  lemma SeqMaxReached(xs: seq<nat>, m: nat)
    requires xs != [] && xs[0] == m
    requires forall k :: 0 <= k < |xs| ==> xs[k] <= m
    ensures SeqMax(xs) == m
  {
    SeqMaxIsMax(xs);
  }

  /** `Outline` draws the same frame as `RoundedOutline` but for the four corners. */
  lemma OnlyCornersDiffer(w: nat, h: nat)
    requires w > 2 && h > 2
    ensures var a, b := Border(Rounded, w, h), Border(Square, w, h);
      |a| == |b| &&
      a[0] == '╭' && b[0] == '┌' && a[w - 1] == '╮' && b[w - 1] == '┐' &&
      a[|a| - w] == '╰' && b[|b| - w] == '└' && a[|a| - 1] == '╯' && b[|b| - 1] == '┘' &&
      forall i :: 0 <= i < |a| && i != 0 && i != w - 1 && i != |a| - w && i != |a| - 1 ==> a[i] == b[i]
  {
    var middle := Repeat("\n" + Side(w), h - 2) + "\n";
    var a, b := Border(Rounded, w, h), Border(Square, w, h);
    assert a == Top(Rounded, w) + middle + Bottom(Rounded, w);
    assert b == Top(Square, w) + middle + Bottom(Square, w);
    forall i | 0 <= i < |a| && i != 0 && i != w - 1 && i != |a| - w && i != |a| - 1
      ensures a[i] == b[i]
    {
      if i < w {
        assert a[i] == Top(Rounded, w)[i] && b[i] == Top(Square, w)[i];
      } else if i < w + |middle| {
        assert a[i] == middle[i - w] && b[i] == middle[i - w];
      } else {
        assert a[i] == Bottom(Rounded, w)[i - w - |middle|] && b[i] == Bottom(Square, w)[i - w - |middle|];
      }
    }
  }

  lemma FormatIsBorder(c: Corners, w: nat, h: nat)
    requires w > 2 && h > 2
    ensures var d := Repeat([Horizontal], w - 2);
      [c.topLeft] + d + [c.topRight] + Repeat("\n" + [Vertical] + Repeat(" ", w - 2) + [Vertical], h - 2) +
        "\n" + [c.bottomLeft] + d + [c.bottomRight] == Border(c, w, h)
  {
    var d := Repeat([Horizontal], w - 2);
    var side := [Vertical] + Repeat(" ", w - 2) + [Vertical];
    assert " " == [' '];
    assert side == Side(w);
    assert "\n" + [Vertical] + Repeat(" ", w - 2) + [Vertical] == "\n" + side;
    var m := Repeat("\n" + side, h - 2);
    assert [c.topLeft] + d + [c.topRight] + m + "\n" + [c.bottomLeft] + d + [c.bottomRight]
      == ([c.topLeft] + d + [c.topRight]) + m + "\n" + ([c.bottomLeft] + d + [c.bottomRight]);
  }

  /** The shared `render` of both outlines: the size from `get_size_or_parent`, and a
      frame drawn only when both sides exceed 2. A drawn frame's measured width must fit `u16`. */
  method RenderFrame(c: Corners, scope: RenderScopes.RenderScope)
    requires c == Rounded || c == Square
    requires scope.GetSizeOrParent().0 > 2 && scope.GetSizeOrParent().1 > 2 ==> 3 * scope.GetSizeOrParent().0 <= U16_MAX
    modifies scope
    ensures var (w, h) := old(scope.GetSizeOrParent());
      if w > 2 && h > 2 then
        scope.renderStack == old(scope.renderStack) + [RenderScopes.Text(Border(c, w, h))] &&
        scope.transform == RenderScopes.Grow(old(scope.transform), 3 * w, h)
      else scope.renderStack == old(scope.renderStack) && scope.transform == old(scope.transform)
    ensures scope.parentWidth == old(scope.parentWidth) && scope.parentHeight == old(scope.parentHeight)
    ensures scope.style == old(scope.style)
  {
    var size := scope.GetSizeOrParent();
    var w, h := size.0, size.1;
    if w > 2 && h > 2 {
      var d := Repeat([Horizontal], w - 2);
      var side := Repeat("\n" + [Vertical] + Repeat(" ", w - 2) + [Vertical], h - 2);
      var text := [c.topLeft] + d + [c.topRight] + side + "\n" + [c.bottomLeft] + d + [c.bottomRight];
      FormatIsBorder(c, w, h);
      BorderSize(c, w, h);
      scope.DrawText(text);
    }
  }

  /** `RoundedOutline::render`. */
  method RenderRoundedOutline(scope: RenderScopes.RenderScope)
    requires scope.GetSizeOrParent().0 > 2 && scope.GetSizeOrParent().1 > 2 ==> 3 * scope.GetSizeOrParent().0 <= U16_MAX
    modifies scope
    ensures var (w, h) := old(scope.GetSizeOrParent());
      if w > 2 && h > 2 then
        scope.renderStack == old(scope.renderStack) + [RenderScopes.Text(Border(Rounded, w, h))] &&
        scope.transform == RenderScopes.Grow(old(scope.transform), 3 * w, h)
      else scope.renderStack == old(scope.renderStack) && scope.transform == old(scope.transform)
    ensures scope.parentWidth == old(scope.parentWidth) && scope.parentHeight == old(scope.parentHeight)
    ensures scope.style == old(scope.style)
  {
    RenderFrame(Rounded, scope);
  }

  /** `Outline::render`. */
  method RenderOutline(scope: RenderScopes.RenderScope)
    requires scope.GetSizeOrParent().0 > 2 && scope.GetSizeOrParent().1 > 2 ==> 3 * scope.GetSizeOrParent().0 <= U16_MAX
    modifies scope
    ensures var (w, h) := old(scope.GetSizeOrParent());
      if w > 2 && h > 2 then
        scope.renderStack == old(scope.renderStack) + [RenderScopes.Text(Border(Square, w, h))] &&
        scope.transform == RenderScopes.Grow(old(scope.transform), 3 * w, h)
      else scope.renderStack == old(scope.renderStack) && scope.transform == old(scope.transform)
    ensures scope.parentWidth == old(scope.parentWidth) && scope.parentHeight == old(scope.parentHeight)
    ensures scope.style == old(scope.style)
  {
    RenderFrame(Square, scope);
  }
}
