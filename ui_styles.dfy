/** Colours, fonts and styles of `src/ui/styles.rs`, written out as ECMA-48 SGR
    control sequences (section 8.3.117), and the "prioritize" rule that lets a
    hover, clicked or selected field override the plain one. */
module UiStyles {
  import Common
  import Sgr

  /** A colour channel, `u8`. */
  type Channel = n: nat | n < 256

  datatype Color = None | Rgb(r: Channel, g: Channel, b: Channel)
                 | Black | Red | Green | Yellow | Blue | Magenta | Cyan | White

  /** The offset of a named colour in the SGR colour table (0 for black to 7 for white). */
  function NamedIndex(c: Color): (n: nat)
    requires !c.None? && !c.Rgb?
    ensures n < 8
  {
    match c
    case Black => 0
    case Red => 1
    case Green => 2
    case Yellow => 3
    case Blue => 4
    case Magenta => 5
    case Cyan => 6
    case White => 7
  }

  /** `Color::ansi`: the foreground escape. */
  function Ansi(c: Color): (s: string)
  {
    match c
    case None => ""
    case Rgb(r, g, b) => "\U{1B}[38;2;" + Common.Decimal(r) + ";" + Common.Decimal(g) + ";" + Common.Decimal(b) + "m"
    case Black => "\U{1B}[30m"
    case Red => "\U{1B}[31m"
    case Green => "\U{1B}[32m"
    case Yellow => "\U{1B}[33m"
    case Blue => "\U{1B}[34m"
    case Magenta => "\U{1B}[35m"
    case Cyan => "\U{1B}[36m"
    case White => "\U{1B}[37m"
  }

  /** `Color::ansi_bg`: the background escape. */
  function AnsiBg(c: Color): (s: string)
  {
    match c
    case None => ""
    case Rgb(r, g, b) => "\U{1B}[48;2;" + Common.Decimal(r) + ";" + Common.Decimal(g) + ";" + Common.Decimal(b) + "m"
    case Black => "\U{1B}[40m"
    case Red => "\U{1B}[41m"
    case Green => "\U{1B}[42m"
    case Yellow => "\U{1B}[43m"
    case Blue => "\U{1B}[44m"
    case Magenta => "\U{1B}[45m"
    case Cyan => "\U{1B}[46m"
    case White => "\U{1B}[47m"
  }

  /** The SGR parameters a colour sets: none for `None`, `38;2;r;g;b` (or `48;2;r;g;b`)
      for an RGB colour, `30 + i` (or `40 + i`) for the named colour `i`. */
  function ColorParams(c: Color, base: nat): seq<nat>
  {
    if c.None? then [] else if c.Rgb? then [base + 8, 2, c.r, c.g, c.b] else [base + NamedIndex(c)]
  }

  lemma RgbIsSgr(c: Color)
    requires c.Rgb?
    ensures Ansi(c) == Sgr.Sequence([38, 2, c.r, c.g, c.b])
  {
    Sgr.Sequence5(38, 2, c.r, c.g, c.b);
    assert Common.Decimal(38) == "38";
    assert Common.Decimal(2) == "2";
    assert [Sgr.ESC, '['] + "38" + ";" + "2" + ";" == "\U{1B}[38;2;";
  }

  lemma RgbBgIsSgr(c: Color)
    requires c.Rgb?
    ensures AnsiBg(c) == Sgr.Sequence([48, 2, c.r, c.g, c.b])
  {
    Sgr.Sequence5(48, 2, c.r, c.g, c.b);
    assert Common.Decimal(48) == "48";
    assert Common.Decimal(2) == "2";
    assert [Sgr.ESC, '['] + "48" + ";" + "2" + ";" == "\U{1B}[48;2;";
  }

  lemma NamedIsSgr(c: Color)
    requires !c.None? && !c.Rgb?
    ensures Ansi(c) == Sgr.Sequence([30 + NamedIndex(c)]) && AnsiBg(c) == Sgr.Sequence([40 + NamedIndex(c)])
  {
    Sgr.ShortCode(30 + NamedIndex(c));
    Sgr.ShortCode(40 + NamedIndex(c));
    match c {
      case Black =>
      case Red =>
      case Green =>
      case Yellow =>
      case Blue =>
      case Magenta =>
      case Cyan =>
      case White =>
    }
  }

  /** Both encodings are the SGR sequence of the colour's parameters, or nothing for
      `None`; so a terminal reading either back finds exactly the colour set. */
  lemma ColorIsSgr(c: Color)
    ensures c.None? ==> Ansi(c) == [] && AnsiBg(c) == []
    ensures !c.None? ==> Ansi(c) == Sgr.Sequence(ColorParams(c, 30)) && AnsiBg(c) == Sgr.Sequence(ColorParams(c, 40))
  {
    if c.Rgb? {
      RgbIsSgr(c);
      RgbBgIsSgr(c);
    } else if !c.None? {
      NamedIsSgr(c);
    }
  }

  /** `Color::prioritize`: the secondary colour, unless it is `None`. */
  function PrioritizeColor(primary: Color, secondary: Color): (r: Color)
    ensures r == primary || r == secondary
    ensures r.None? <==> primary.None? && secondary.None?
  {
    if secondary == Color.None then primary else secondary
  }

  datatype Font = None | Bold | Underline | Italic | Reverse | Strike | Mul(fonts: seq<Font>)

  /** The SGR code of a single font attribute. */
  function FontCode(f: Font): (n: nat)
    requires !f.None? && !f.Mul?
  {
    match f
    case Bold => 1
    case Underline => 4
    case Italic => 3
    case Reverse => 7
    case Strike => 9
  }

  /** `Font::ansi`: a single attribute's escape; `Mul` concatenates its parts' escapes. */
  function FontAnsi(f: Font): string
    decreases f, 1
  {
    match f
    case None => ""
    case Bold => "\U{1B}[1m"
    case Underline => "\U{1B}[4m"
    case Italic => "\U{1B}[3m"
    case Reverse => "\U{1B}[7m"
    case Strike => "\U{1B}[9m"
    case Mul(v) => FontsAnsi(v)
  }

  /** The escapes of `fonts`, in order, as the `for` loop of `Font::ansi` accumulates them. */
  function FontsAnsi(fonts: seq<Font>): string
    decreases fonts, 0
  {
    if fonts == [] then "" else FontsAnsi(fonts[..|fonts| - 1]) + FontAnsi(fonts[|fonts| - 1])
  }

  /** A single attribute is the SGR sequence of its code. */
  lemma FontIsSgr(f: Font)
    requires !f.None? && !f.Mul?
    ensures FontAnsi(f) == Sgr.Sequence([FontCode(f)])
  {
    Sgr.ShortCode(FontCode(f));
  }

  /** `Mul(v + w)` writes what `Mul(v)` writes and then what `Mul(w)` writes; `Mul([])`
      writes nothing and `Mul([f])` writes what `f` does. */
  lemma {:induction false} MulConcatenates(v: seq<Font>, w: seq<Font>)
    ensures FontAnsi(Mul(v + w)) == FontAnsi(Mul(v)) + FontAnsi(Mul(w))
    ensures FontAnsi(Mul([])) == ""
    ensures |w| == 1 ==> FontAnsi(Mul(w)) == FontAnsi(w[0])
    decreases |w|
  {
    if w == [] {
      assert v + w == v;
    } else {
      var w' := w[..|w| - 1];
      assert (v + w)[..|v + w| - 1] == v + w';
      MulConcatenates(v, w');
      if |w| == 1 {
        assert w' == [];
      }
    }
  }

  /** `Font::prioritize`: the secondary font, unless it is `None`. */
  function PrioritizeFont(primary: Font, secondary: Font): (r: Font)
    ensures r == primary || r == secondary
    ensures r.None? <==> primary.None? && secondary.None?
  {
    if secondary == Font.None then primary else secondary
  }

  /** Prioritizing is idempotent and associative, and `None` is neutral on both sides. */
  lemma PrioritizeLaws(a: Color, b: Color, c: Color, f: Font, g: Font, h: Font)
    ensures PrioritizeColor(a, a) == a && PrioritizeColor(PrioritizeColor(a, b), b) == PrioritizeColor(a, b)
    ensures PrioritizeColor(PrioritizeColor(a, b), c) == PrioritizeColor(a, PrioritizeColor(b, c))
    ensures PrioritizeColor(a, Color.None) == a && PrioritizeColor(Color.None, b) == b
    ensures PrioritizeFont(f, f) == f && PrioritizeFont(PrioritizeFont(f, g), g) == PrioritizeFont(f, g)
    ensures PrioritizeFont(PrioritizeFont(f, g), h) == PrioritizeFont(f, PrioritizeFont(g, h))
    ensures PrioritizeFont(f, Font.None) == f && PrioritizeFont(Font.None, g) == g
  {
  }

  /** The style of an element: plain, hover, clicked and selected colours and fonts,
      the cursor colours, and whether the element is active (hovered). */
  datatype Style = Style(
    bg: Color, fg: Color, outline: Color, font: Font,
    hoverBg: Color, hoverFg: Color, hoverOutline: Color, hoverFont: Font,
    hoverCursorFg: Color, hoverCursorBg: Color,
    clickedBg: Color, clickedFg: Color, clickedOutline: Color, clickedFont: Font,
    selectedBg: Color, selectedFg: Color, selectedFont: Font,
    cursorFg: Color, cursorBg: Color,
    isActive: bool)

  /** `Style::default`: every colour and font `None`, not active. */
  const Default: Style := Style(
    Color.None, Color.None, Color.None, Font.None,
    Color.None, Color.None, Color.None, Font.None,
    Color.None, Color.None,
    Color.None, Color.None, Color.None, Font.None,
    Color.None, Color.None, Font.None,
    Color.None, Color.None,
    false)

  /** The escapes for a foreground, a background and a font, in that order. */
  function Escapes(fg: Color, bg: Color, font: Font): string
  {
    Ansi(fg) + AnsiBg(bg) + FontAnsi(font)
  }

  /** The colours and font `get` uses: hover-prioritized exactly when active. */
  function Effective(st: Style): (Color, Color, Font)
  {
    if st.isActive then
      (PrioritizeColor(st.fg, st.hoverFg), PrioritizeColor(st.bg, st.hoverBg), PrioritizeFont(st.font, st.hoverFont))
    else (st.fg, st.bg, st.font)
  }

  /** `Style::get`. */
  function Get(st: Style): string
  {
    if st.isActive then
      Ansi(PrioritizeColor(st.fg, st.hoverFg)) + AnsiBg(PrioritizeColor(st.bg, st.hoverBg)) +
      FontAnsi(PrioritizeFont(st.font, st.hoverFont))
    else Ansi(st.fg) + AnsiBg(st.bg) + FontAnsi(st.font)
  }

  /** `Style::get_outline`. */
  function GetOutline(st: Style): string
  {
    if st.isActive then Ansi(PrioritizeColor(st.outline, st.hoverOutline)) else Ansi(st.outline)
  }

  /** `Style::get_clicked`: always the clicked-prioritized fields, active or not. */
  function GetClicked(st: Style): string
  {
    Ansi(PrioritizeColor(st.fg, st.clickedFg)) + AnsiBg(PrioritizeColor(st.bg, st.clickedBg)) +
    FontAnsi(PrioritizeFont(st.font, st.clickedFont))
  }

  /** `Style::get_selected`: always the selected-prioritized fields. */
  function GetSelected(st: Style): string
  {
    Ansi(PrioritizeColor(st.fg, st.selectedFg)) + AnsiBg(PrioritizeColor(st.bg, st.selectedBg)) +
    FontAnsi(PrioritizeFont(st.font, st.selectedFont))
  }

  /** `Style::get_cursor`: the cursor colours, hover-prioritized exactly when active. */
  function GetCursor(st: Style): string
  {
    if st.isActive then
      Ansi(PrioritizeColor(st.cursorFg, st.hoverCursorFg)) + AnsiBg(PrioritizeColor(st.cursorBg, st.hoverCursorBg))
    else Ansi(st.cursorFg) + AnsiBg(st.cursorBg)
  }

  /** Which `get*` a `write*` wraps. */
  datatype Part = Body | Outline | Clicked | Selected | Cursor

  function Prefix(st: Style, part: Part): string
  {
    match part
    case Body => Get(st)
    case Outline => GetOutline(st)
    case Clicked => GetClicked(st)
    case Selected => GetSelected(st)
    case Cursor => GetCursor(st)
  }

  /** `write`, `write_outline`, `write_clicked`, `write_selected`, `write_cursor`: the
      matching escapes, the text, then the reset sequence. */
  function Write(st: Style, part: Part, s: string): (r: string)
    ensures |r| == |Prefix(st, part)| + |s| + 4
    ensures r[..|Prefix(st, part)|] == Prefix(st, part)
    ensures r[|Prefix(st, part)|..|r| - 4] == s
    ensures r[|r| - 4..] == "\U{1B}[0m"
  {
    Prefix(st, part) + s + "\U{1B}[0m"
  }

  /** The reset that `write*` appends is SGR 0. */
  lemma WriteEndsInReset()
    ensures "\U{1B}[0m" == Sgr.Reset
  {
    Sgr.ShortCode(0);
  }

  /** The default style writes no escapes of its own. */
  lemma DefaultWritesNothing(s: string)
    ensures Get(Default) == "" && GetOutline(Default) == "" && GetCursor(Default) == ""
    ensures GetClicked(Default) == "" && GetSelected(Default) == ""
    ensures Write(Default, Body, s) == s + Sgr.Reset
  {
    Sgr.ShortCode(0);
  }

  /** A colour's escape shows nothing on the terminal. */
  lemma ColorInvisible(c: Color, b: string)
    ensures Sgr.Visible(Ansi(c) + b) == Sgr.Visible(b) && Sgr.Visible(AnsiBg(c) + b) == Sgr.Visible(b)
  {
    ColorIsSgr(c);
    if c.None? {
      assert Ansi(c) + b == b && AnsiBg(c) + b == b;
    } else {
      Sgr.VisibleSequence(ColorParams(c, 30), b);
      Sgr.VisibleSequence(ColorParams(c, 40), b);
    }
  }

  /** A font's escape shows nothing on the terminal. */
  lemma {:induction false} FontInvisible(f: Font, b: string)
    ensures Sgr.Visible(FontAnsi(f) + b) == Sgr.Visible(b)
    decreases f, 1
  {
    match f {
      case None => assert FontAnsi(f) + b == b;
      case Mul(v) => FontsInvisible(v, b);
      case _ =>
        FontIsSgr(f);
        Sgr.VisibleSequence([FontCode(f)], b);
    }
  }

  lemma {:induction false} FontsInvisible(v: seq<Font>, b: string)
    ensures Sgr.Visible(FontsAnsi(v) + b) == Sgr.Visible(b)
    decreases v, 0
  {
    if v == [] {
      assert FontsAnsi(v) + b == b;
    } else {
      var init := v[..|v| - 1];
      FontInvisible(v[|v| - 1], b);
      FontsInvisible(init, FontAnsi(v[|v| - 1]) + b);
      assert FontsAnsi(v) + b == FontsAnsi(init) + (FontAnsi(v[|v| - 1]) + b);
    }
  }

  /** A foreground, a background and a font escape together show nothing. */
  lemma EscapesInvisible(fg: Color, bg: Color, font: Font, b: string)
    ensures Sgr.Visible(Escapes(fg, bg, font) + b) == Sgr.Visible(b)
  {
    var x, y, z := Ansi(fg), AnsiBg(bg), FontAnsi(font);
    FontInvisible(font, b);
    ColorInvisible(bg, z + b);
    ColorInvisible(fg, y + (z + b));
    Regroup(x, y, z, b);
  }

  lemma Regroup(x: string, y: string, z: string, b: string)
    ensures x + y + z + b == x + (y + (z + b))
  {
  }

  /** Whatever the style, every `get*` string shows nothing. */
  lemma PrefixInvisible(st: Style, part: Part, b: string)
    ensures Sgr.Visible(Prefix(st, part) + b) == Sgr.Visible(b)
  {
    match part {
      case Body => GetInvisible(st, b);
      case Outline =>
        ColorInvisible(if st.isActive then PrioritizeColor(st.outline, st.hoverOutline) else st.outline, b);
      case Clicked =>
        EscapesInvisible(PrioritizeColor(st.fg, st.clickedFg), PrioritizeColor(st.bg, st.clickedBg),
                         PrioritizeFont(st.font, st.clickedFont), b);
      case Selected =>
        EscapesInvisible(PrioritizeColor(st.fg, st.selectedFg), PrioritizeColor(st.bg, st.selectedBg),
                         PrioritizeFont(st.font, st.selectedFont), b);
      case Cursor => GetCursorInvisible(st, b);
    }
  }

  lemma GetInvisible(st: Style, b: string)
    ensures Sgr.Visible(Get(st) + b) == Sgr.Visible(b)
  {
    var (fg, bg, font) := Effective(st);
    assert Get(st) == Escapes(fg, bg, font);
    EscapesInvisible(fg, bg, font, b);
  }

  lemma GetCursorInvisible(st: Style, b: string)
    ensures Sgr.Visible(GetCursor(st) + b) == Sgr.Visible(b)
  {
    if st.isActive {
      ColorsInvisible(PrioritizeColor(st.cursorFg, st.hoverCursorFg), PrioritizeColor(st.cursorBg, st.hoverCursorBg), b);
    } else {
      ColorsInvisible(st.cursorFg, st.cursorBg, b);
    }
  }

  lemma ColorsInvisible(fg: Color, bg: Color, b: string)
    ensures Sgr.Visible(Ansi(fg) + AnsiBg(bg) + b) == Sgr.Visible(b)
  {
    var x, y := Ansi(fg), AnsiBg(bg);
    ColorInvisible(bg, b);
    ColorInvisible(fg, y + b);
    Regroup2(x, y, b);
  }

  lemma Regroup2(x: string, y: string, b: string)
    ensures x + y + b == x + (y + b)
  {
  }

  /** Whatever the style, a terminal shows exactly the text that `write*` wraps: the
      escapes around it change only how it looks. */
  lemma WriteShowsText(st: Style, part: Part, s: string)
    requires forall i :: 0 <= i < |s| ==> s[i] != Sgr.ESC
    ensures Sgr.Visible(Write(st, part, s)) == s
  {
    var reset := "\U{1B}[0m";
    WriteEndsInReset();
    Sgr.VisibleSequence([0], []);
    assert Sgr.Reset + [] == Sgr.Reset;
    Sgr.VisiblePlain(s, reset);
    PrefixInvisible(st, part, s + reset);
    assert Write(st, part, s) == Prefix(st, part) + (s + reset);
    assert Sgr.Visible([]) == [];
    assert s + [] == s;
  }

  /** `get`, `get_outline` and `get_cursor` use a hover field in place of the plain one
      exactly when the style is active and the hover field is set; an active style
      with no hover fields set writes what the inactive one does. */
  lemma HoverOverrides(st: Style)
    ensures !st.isActive ==> Get(st) == Escapes(st.fg, st.bg, st.font)
    ensures st.isActive ==> Get(st) == Escapes(
      if st.hoverFg.None? then st.fg else st.hoverFg,
      if st.hoverBg.None? then st.bg else st.hoverBg,
      if st.hoverFont.None? then st.font else st.hoverFont)
    ensures st.isActive ==> GetOutline(st) == Ansi(if st.hoverOutline.None? then st.outline else st.hoverOutline)
    ensures st.isActive ==> (GetCursor(st) ==
      Ansi(if st.hoverCursorFg.None? then st.cursorFg else st.hoverCursorFg) +
      AnsiBg(if st.hoverCursorBg.None? then st.cursorBg else st.hoverCursorBg))
    ensures st.hoverFg.None? && st.hoverBg.None? && st.hoverFont.None? && st.hoverOutline.None? &&
            st.hoverCursorFg.None? && st.hoverCursorBg.None? ==>
      var off := st.(isActive := false);
      Get(st) == Get(off) && GetOutline(st) == GetOutline(off) && GetCursor(st) == GetCursor(off)
  {
  }

  /** `get_clicked` and `get_selected` do not look at whether the style is active, and
      a set clicked or selected field always wins over the plain one. */
  lemma ClickedSelectedIgnoreActivity(st: Style, active: bool)
    ensures GetClicked(st) == GetClicked(st.(isActive := active))
    ensures GetSelected(st) == GetSelected(st.(isActive := active))
    ensures GetClicked(st) == Escapes(
      if st.clickedFg.None? then st.fg else st.clickedFg,
      if st.clickedBg.None? then st.bg else st.clickedBg,
      if st.clickedFont.None? then st.font else st.clickedFont)
    ensures GetSelected(st) == Escapes(
      if st.selectedFg.None? then st.fg else st.selectedFg,
      if st.selectedBg.None? then st.bg else st.selectedBg,
      if st.selectedFont.None? then st.font else st.selectedFont)
  {
  }
}
