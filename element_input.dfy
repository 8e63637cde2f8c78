/** The text input of `src/element/input.rs` (`Input(String, usize)`): a text and a
    cursor edited by key presses, announcing each change as an event; it draws the
    character under the cursor on a green background. As in the other editor, the
    text is kept ASCII so that the source's byte indices are character indices. */
module ElementInput {
  import opened Common
  import opened Keys
  import Sgr
  import RenderScopes
  import Utils

  /** The events `on_keypress` dispatches: `InputUpdateEvent(text)` and
      `InputKeyPress(text, key)`. */
  datatype InputEvent = InputUpdate(text: string) | InputKeyPress(text: string, key: KeyEvent)

  /** The text with the character at `c` between a green-background and a reset
      sequence, or with a green space appended when the cursor is past the end. */
  function Highlighted(text: string, c: nat): (r: string)
  {
    if c < |text| then text[..c] + Sgr.Sequence([42]) + [text[c]] + Sgr.Reset + text[c + 1..]
    else text + Sgr.Sequence([42]) + " " + Sgr.Reset
  }

  predicate NoEscape(s: string) { forall i :: 0 <= i < |s| ==> s[i] != Sgr.ESC }

  /** A character between the green and the reset sequence shows as itself. */
  lemma ShowsHighlightedChar(ch: char, rest: string)
    requires ch != Sgr.ESC
    ensures Sgr.Visible(Sgr.Sequence([42]) + ([ch] + (Sgr.Reset + rest))) == [ch] + Sgr.Visible(rest)
  {
    Sgr.VisibleSequence([42], [ch] + (Sgr.Reset + rest));
    Sgr.VisiblePlain([ch], Sgr.Reset + rest);
    Sgr.VisibleSequence([0], rest);
  }

  /** The highlight adds nothing visible but the trailing space: the terminal shows
      the text, plus a space when the cursor is past its end. */
  lemma HighlightShowsText(text: string, c: nat)
    requires NoEscape(text)
    ensures c < |text| ==> Sgr.Visible(Highlighted(text, c)) == text
    ensures c >= |text| ==> Sgr.Visible(Highlighted(text, c)) == text + " "
  {
    if c < |text| {
      ShowsInside(text, c);
    } else {
      ShowsPastEnd(text, c);
    }
  }

  lemma ShowsInside(text: string, c: nat)
    requires NoEscape(text) && c < |text|
    ensures Sgr.Visible(Highlighted(text, c)) == text
  {
    var g, z := Sgr.Sequence([42]), Sgr.Reset;
    var pre, ch, rest := text[..c], text[c], text[c + 1..];
    var tail := g + ([ch] + (z + rest));
    Regroup(pre, g, [ch], z, rest);
    Sgr.VisiblePlain(pre, tail);
    ShowsHighlightedChar(ch, rest);
    Sgr.VisiblePlain(rest, []);
    assert rest + [] == rest;
    assert pre + ([ch] + rest) == text;
  }

  lemma ShowsPastEnd(text: string, c: nat)
    requires NoEscape(text) && c >= |text|
    ensures Sgr.Visible(Highlighted(text, c)) == text + " "
  {
    var g, z := Sgr.Sequence([42]), Sgr.Reset;
    var tail := g + (" " + (z + []));
    Regroup(text, g, " ", z, []);
    assert text + g + " " + z == text + g + " " + z + [];
    Sgr.VisiblePlain(text, tail);
    ShowsHighlightedChar(' ', []);
  }

  lemma Regroup(a: string, b: string, c: string, d: string, e: string)
    ensures a + b + c + d + e == a + (b + (c + (d + e)))
  {
  }

  /** The highlight is in the right place: the green sequence sits just before the
      cursor's character and the reset just after it. */
  lemma HighlightAtCursor(text: string, c: nat)
    requires c < |text|
    ensures var g := Sgr.Sequence([42]); var h := Highlighted(text, c);
      h[..c] == text[..c] && h[c..c + |g|] == g && h[c + |g|] == text[c] &&
      h[c + |g| + 1..c + |g| + 1 + |Sgr.Reset|] == Sgr.Reset
  {
    var g := Sgr.Sequence([42]);
    var h := Highlighted(text, c);
    assert h == text[..c] + g + [text[c]] + Sgr.Reset + text[c + 1..];
  }

  /** `on_keypress` on the text and cursor: the new pair and the event dispatched,
      if any (lines 44-74). Left at the start and Right at the end change nothing
      and dispatch nothing; a key not handled dispatches `InputKeyPress`. */
  function Keypress(text: string, cursor: nat, key: KeyEvent): (r: (string, nat, Option<InputEvent>))
    requires cursor <= |text|
    ensures r.1 <= |r.0|
    ensures r.2.Some? && r.2.value.InputUpdate? ==> r.2.value.text == r.0
    ensures r.2.Some? && r.2.value.InputKeyPress? ==> r.2.value == InputKeyPress(text, key) && r.0 == text && r.1 == cursor
    ensures r.2.None? <==> ((key.code == Backspace || key.code == Left) && cursor == 0) || (key.code == Right && cursor == |text|)
    ensures r.2.None? ==> r.0 == text && r.1 == cursor
    ensures key.code.Char? ==>
      r.0 == text[..cursor] + [key.code.c] + text[cursor..] && r.1 == cursor + 1 && r.2 == Some(InputUpdate(r.0))
    ensures key.code == Backspace && cursor > 0 ==>
      r.0 == text[..cursor - 1] + text[cursor..] && r.1 == cursor - 1 && r.2 == Some(InputUpdate(r.0))
    ensures key.code == Left && cursor > 0 ==>
      r.0 == text && r.1 == cursor - 1 && r.2 == Some(InputUpdate(text))
    ensures key.code == Right && cursor < |text| ==>
      r.0 == text && r.1 == cursor + 1 && r.2 == Some(InputUpdate(text))
    ensures !key.code.Char? && key.code !in {Backspace, Left, Right} ==>
      r.0 == text && r.1 == cursor && r.2 == Some(InputKeyPress(text, key))
  {
    match key.code
    case Char(ch) =>
      var t := text[..cursor] + [ch] + text[cursor..];
      (t, cursor + 1, Some(InputUpdate(t)))
    case Backspace =>
      if cursor > 0 then
        var t := text[..cursor - 1] + text[cursor..];
        (t, cursor - 1, Some(InputUpdate(t)))
      else (text, cursor, None)
    case Left =>
      if cursor > 0 then (text, cursor - 1, Some(InputUpdate(text))) else (text, cursor, None)
    case Right =>
      if cursor < |text| then (text, cursor + 1, Some(InputUpdate(text))) else (text, cursor, None)
    case _ => (text, cursor, Some(InputKeyPress(text, key)))
  }

  /** Backspace right after a typed character takes it away again, and both announce
      the text they leave. */
  lemma BackspaceUndoesChar(text: string, cursor: nat, ch: char, mods: set<Modifier>, mods': set<Modifier>)
    requires cursor <= |text|
    ensures var (t, c, _) := Keypress(text, cursor, KeyEvent(Char(ch), mods));
      Keypress(t, c, KeyEvent(Backspace, mods')) == (text, cursor, Some(InputUpdate(text)))
  {
    var t := text[..cursor] + [ch] + text[cursor..];
    assert t[..cursor] == text[..cursor];
    assert t[cursor + 1..] == text[cursor..];
    assert text[..cursor] + text[cursor..] == text;
  }

  /** Delete is not one of the keys this input edits on: it is passed on unchanged. */
  lemma DeleteIsPassedOn(text: string, cursor: nat, mods: set<Modifier>)
    requires cursor <= |text|
    ensures Keypress(text, cursor, KeyEvent(Delete, mods)) ==
      (text, cursor, Some(InputKeyPress(text, KeyEvent(Delete, mods))))
  {
  }

  /** The two escapes `render` inserts, spelled as `Sgr` writes them. */
  lemma GreenAndReset()
    ensures Sgr.Sequence([42]) == "\U{1B}[42m" && Sgr.Reset == "\U{1B}[0m"
  {
    Sgr.ShortCode(42);
    Sgr.ShortCode(0);
  }

  /** Inserting `r` after the character at `c` and then `g` before it puts that
      character between the two. */
  lemma InsertAround(text: string, c: nat, g: string, r: string)
    requires c < |text|
    ensures var s := text[..c + 1] + r + text[c + 1..];
      s[..c] + g + s[c..] == text[..c] + g + [text[c]] + r + text[c + 1..]
  {
    var s := text[..c + 1] + r + text[c + 1..];
    assert s[..c] == text[..c];
    assert s[c..] == [text[c]] + r + text[c + 1..];
  }

  /** What the two `insert_str` calls, or the one `push_str`, build is the highlighted text. */
  lemma RenderIsHighlighted(text: string, c: nat)
    ensures c < |text| ==> var s := text[..c + 1] + "\U{1B}[0m" + text[c + 1..];
      s[..c] + "\U{1B}[42m" + s[c..] == Highlighted(text, c)
    ensures c >= |text| ==> text + "\U{1B}[42m \U{1B}[0m" == Highlighted(text, c)
  {
    GreenAndReset();
    if c < |text| {
      InsertAround(text, c, "\U{1B}[42m", "\U{1B}[0m");
    } else {
      assert "\U{1B}[42m \U{1B}[0m" == "\U{1B}[42m" + " " + "\U{1B}[0m";
    }
  }

  /** The fields of an `Input`: the text (`.0`) and the cursor (`.1`). */
  class Input {
    var text: string
    var cursor: nat

    /** `Input::new`. */
    constructor ()
      ensures text == [] && cursor == 0
    {
      text := [];
      cursor := 0;
    }

    ghost predicate Valid()
      reads this
    {
      cursor <= |text| && IsAscii(text) && NoEscape(text)
    }

    /** `on_keypress`: edits as `Keypress` says and returns the event it dispatches. A
        typed character must be ASCII other than ESC. */
    method OnKeypress(key: KeyEvent) returns (dispatched: Option<InputEvent>)
      requires Valid()
      requires key.code.Char? ==> key.code.c < '\U{80}' && key.code.c != Sgr.ESC
      modifies this
      ensures Valid()
      ensures (text, cursor, dispatched) == Keypress(old(text), old(cursor), key)
    {
      ghost var t0 := text;
      match key.code {
        case Char(ch) =>
          text := text[..cursor] + [ch] + text[cursor..];
          cursor := cursor + 1;
          dispatched := Some(InputUpdate(text));
        case Backspace =>
          if cursor > 0 {
            text := text[..cursor - 1] + text[cursor..];
            cursor := cursor - 1;
            dispatched := Some(InputUpdate(text));
          } else {
            dispatched := None;
          }
        case Left =>
          if cursor > 0 {
            cursor := cursor - 1;
            dispatched := Some(InputUpdate(text));
          } else {
            dispatched := None;
          }
        case Right =>
          if cursor < |text| {
            cursor := cursor + 1;
            dispatched := Some(InputUpdate(text));
          } else {
            dispatched := None;
          }
        case _ =>
          dispatched := Some(InputKeyPress(text, key));
      }
      forall i | 0 <= i < |text|
        ensures text[i] as int < 0x80 && text[i] != Sgr.ESC
      {
        if key.code.Char? && i > old(cursor) {
          assert text[i] == t0[i - 1];
        } else if key.code == Backspace && old(cursor) > 0 && i >= old(cursor) - 1 {
          assert text[i] == t0[i + 1];
        }
      }
    }

    /** `render`: draws the highlighted text (one `insert_str` after the cursor's
        character, then one before it, or one append) as a single text call. */
    method Render(scope: RenderScopes.RenderScope)
      requires Valid()
      requires RenderScopes.Measurable(Highlighted(text, cursor))
      modifies scope
      ensures scope.renderStack == old(scope.renderStack) + [RenderScopes.Text(Highlighted(text, cursor))]
      ensures scope.transform == RenderScopes.Grow(old(scope.transform),
        Utils.Size(Highlighted(text, cursor)).width, Utils.Size(Highlighted(text, cursor)).height)
      ensures scope.parentWidth == old(scope.parentWidth) && scope.parentHeight == old(scope.parentHeight)
      ensures scope.style == old(scope.style)
    {
      var s := text;
      RenderIsHighlighted(text, cursor);
      if cursor < |text| {
        s := s[..cursor + 1] + "\U{1B}[0m" + s[cursor + 1..];
        s := s[..cursor] + "\U{1B}[42m" + s[cursor..];
      } else {
        s := s + "\U{1B}[42m \U{1B}[0m";
      }
      scope.DrawText(s);
    }
  }
}
