/** The older `Style` of `src/style.rs`: plain and hover colours and a font, and an
    activity flag that `get` does not consult. Its `Color` and `Font` enums and their
    encodings are the same as those of `src/ui/styles.rs`, and are taken from there. */
module LegacyStyle {
  import UiStyles

  /** The fields of the older `Style`. */
  class Style {
    var bg: UiStyles.Color
    var fg: UiStyles.Color
    var font: UiStyles.Font
    var hoverBg: UiStyles.Color
    var hoverFg: UiStyles.Color
    var hoverFont: UiStyles.Font
    var isActive: bool

    /** `Style::new`: every colour and font `None`, not active. */
    constructor ()
      ensures bg.None? && fg.None? && font.None? && hoverBg.None? && hoverFg.None? && hoverFont.None?
      ensures !isActive
    {
      bg, fg, font := UiStyles.Color.None, UiStyles.Color.None, UiStyles.Font.None;
      hoverBg, hoverFg, hoverFont := UiStyles.Color.None, UiStyles.Color.None, UiStyles.Font.None;
      isActive := false;
    }

    /** `update`: sets only the activity flag, so nothing `get` or `get_hover` write changes. */
    method Update(active: bool)
      modifies this
      ensures isActive == active
      ensures bg == old(bg) && fg == old(fg) && font == old(font)
      ensures hoverBg == old(hoverBg) && hoverFg == old(hoverFg) && hoverFont == old(hoverFont)
      ensures Get() == old(Get()) && GetHover() == old(GetHover())
    {
      isActive := active;
    }

    /** `get`: the plain escapes, active or not. It writes what the newer style
        writes for an inactive style with the same plain fields. */
    function Get(): (s: string)
      reads this
      ensures s == UiStyles.Get(UiStyles.Default.(fg := fg, bg := bg, font := font))
    {
      UiStyles.Ansi(fg) + UiStyles.AnsiBg(bg) + UiStyles.FontAnsi(font)
    }

    /** `get_outline`: the same string as `get`. */
    function GetOutline(): (s: string)
      reads this
      ensures s == Get()
    {
      UiStyles.Ansi(fg) + UiStyles.AnsiBg(bg) + UiStyles.FontAnsi(font)
    }

    /** `get_hover`: the hover escapes only, with no fallback to the plain fields;
        it is what the newer style writes when active with these hover fields and
        no plain ones. */
    function GetHover(): (s: string)
      reads this
      ensures s == UiStyles.Get(UiStyles.Default.(hoverFg := hoverFg, hoverBg := hoverBg, hoverFont := hoverFont, isActive := true))
    {
      UiStyles.Ansi(hoverFg) + UiStyles.AnsiBg(hoverBg) + UiStyles.FontAnsi(hoverFont)
    }
  }

  /** Unlike the newer style, `get_hover` does not fall back: with a plain
      foreground and no hover one, it writes no foreground at all. */
  lemma HoverHasNoFallback(st: Style)
    requires st.fg == UiStyles.Red && st.hoverFg.None? && st.hoverBg.None? && st.hoverFont.None?
    ensures st.GetHover() == ""
    ensures st.Get() != ""
  {
    assert UiStyles.Ansi(UiStyles.Red) == "\U{1B}[31m";
  }
}
