/** The text field of `src/elements/input.rs`: a text and a cursor, edited by key
    presses. The source indexes the text by bytes and the cursor counts characters;
    the two agree on ASCII text, which is what this model keeps (typed characters
    must be ASCII). */
module ElementsInput {
  import opened Common
  import opened Keys

  /** The field's state: the text and the cursor. */
  datatype Field = Field(text: string, cursor: nat)

  /** The cursor lies within the text, and the text is ASCII. */
  predicate Sound(f: Field)
  {
    f.cursor <= |f.text| && IsAscii(f.text)
  }

  /** Key presses carrying a modifier other than Shift are ignored; Shift alone, or
      together with other modifiers, is accepted. */
  predicate Accepts(modifiers: set<Modifier>)
  {
    modifiers == {} || Shift in modifiers
  }

  /** `s.insert(i, c)`. */
  function Insert(s: string, i: nat, c: char): (r: string)
    requires i <= |s|
  {
    s[..i] + [c] + s[i..]
  }

  /** `s.remove(i)`. */
  function Remove(s: string, i: nat): (r: string)
    requires i < |s|
  {
    s[..i] + s[i + 1..]
  }

  /** The field after one accepted key press (lines 39-65). */
  function Edit(f: Field, code: KeyCode): (r: Field)
    requires f.cursor <= |f.text|
    ensures r.cursor <= |r.text|
    ensures code.Char? ==> |r.text| == |f.text| + 1 && r.cursor == f.cursor + 1
    ensures code == Backspace ==>
      (f.cursor > 0 <==> |r.text| == |f.text| - 1) && (f.cursor == 0 ==> r == f)
    ensures code == Delete ==>
      r.cursor == f.cursor && (f.cursor < |f.text| <==> |r.text| == |f.text| - 1) &&
      (f.cursor == |f.text| ==> r == f)
    ensures code == Left || code == Right ==> r.text == f.text && Abs(r.cursor - f.cursor) <= 1
    ensures !code.Char? && code !in {Backspace, Delete, Left, Right} ==> r == f
    ensures code.Char? ==> r.text == f.text[..f.cursor] + [code.c] + f.text[f.cursor..]
    ensures code == Backspace && f.cursor > 0 ==>
      r.cursor == f.cursor - 1 && r.text == f.text[..f.cursor - 1] + f.text[f.cursor..]
    ensures code == Delete && f.cursor < |f.text| ==> r.text == f.text[..f.cursor] + f.text[f.cursor + 1..]
    ensures code == Left ==> r.cursor == if f.cursor > 0 then f.cursor - 1 else f.cursor
    ensures code == Right ==> r.cursor == if f.cursor < |f.text| then f.cursor + 1 else f.cursor
  {
    match code
    case Char(c) => Field(Insert(f.text, f.cursor, c), f.cursor + 1)
    case Backspace =>
      if f.cursor > 0 then Field(Remove(f.text, f.cursor - 1), f.cursor - 1) else f
    case Delete =>
      if |f.text| > f.cursor then Field(Remove(f.text, f.cursor), f.cursor) else f
    case Left => if f.cursor > 0 then f.(cursor := f.cursor - 1) else f
    case Right => if f.cursor < |f.text| then f.(cursor := f.cursor + 1) else f
    case _ => f
  }

  /** Every key keeps the field sound, given an ASCII typed character. */
  lemma EditKeepsSound(f: Field, code: KeyCode)
    requires Sound(f)
    requires code.Char? ==> code.c as int < 0x80
    ensures Sound(Edit(f, code))
  {
    var r := Edit(f, code);
    forall i | 0 <= i < |r.text|
      ensures r.text[i] as int < 0x80
    {
      if code.Char? {
        if i > f.cursor {
          assert r.text[i] == f.text[i - 1];
        } else if i < f.cursor {
          assert r.text[i] == f.text[i];
        }
      } else if code == Backspace && f.cursor > 0 {
        if i >= f.cursor - 1 {
          assert r.text[i] == f.text[i + 1];
        } else {
          assert r.text[i] == f.text[i];
        }
      } else if code == Delete && f.cursor < |f.text| {
        if i >= f.cursor {
          assert r.text[i] == f.text[i + 1];
        } else {
          assert r.text[i] == f.text[i];
        }
      }
    }
  }

  /** Typing a character puts it at the cursor, with the text around it kept. */
  lemma CharLandsAtCursor(f: Field, c: char)
    requires f.cursor <= |f.text|
    ensures var r := Edit(f, Char(c));
      r.text[f.cursor] == c && r.text[..f.cursor] == f.text[..f.cursor] &&
      r.text[f.cursor + 1..] == f.text[f.cursor..]
  {
    var r := Edit(f, Char(c));
    assert r.text == f.text[..f.cursor] + [c] + f.text[f.cursor..];
    assert r.text[..f.cursor] == f.text[..f.cursor];
    assert r.text[f.cursor + 1..] == f.text[f.cursor..];
  }

  /** Backspace undoes typing a character. */
  lemma BackspaceUndoesChar(f: Field, c: char)
    requires f.cursor <= |f.text|
    ensures Edit(Edit(f, Char(c)), Backspace) == f
  {
    var t := Edit(f, Char(c)).text;
    assert t == f.text[..f.cursor] + [c] + f.text[f.cursor..];
    assert t[..f.cursor] == f.text[..f.cursor];
    assert t[f.cursor + 1..] == f.text[f.cursor..];
    assert f.text[..f.cursor] + f.text[f.cursor..] == f.text;
  }

  /** Right undoes Left away from the start, and Left undoes Right away from the end. */
  lemma LeftRightInverse(f: Field)
    requires f.cursor <= |f.text|
    ensures f.cursor > 0 ==> Edit(Edit(f, Left), Right) == f
    ensures f.cursor < |f.text| ==> Edit(Edit(f, Right), Left) == f
  {
  }

  /** What `render` draws: plain text at a column and row, or inverted text. */
  datatype Drawn = Plain(x: U16, y: U16, text: string) | Inverted(x: U16, y: U16, text: string)

  /** The fields of an `Input`: its text state and the cursor. */
  class Input {
    var text: string
    var cursor: nat

    /** `Input::new`: empty text, cursor at 0. */
    constructor ()
      ensures text == [] && cursor == 0
    {
      text := [];
      cursor := 0;
    }

    ghost predicate Valid()
      reads this
    {
      Sound(Field(text, cursor))
    }

    /** `event`: an accepted key press edits the field as `Edit` says; a key press with
        a modifier other than Shift, or any other event, changes nothing. */
    method Event(ev: AppEvent)
      requires Valid()
      requires ev.Terminal? && ev.e.Key? && ev.e.key.code.Char? ==> ev.e.key.code.c as int < 0x80
      modifies this
      ensures Valid()
      ensures ev.Terminal? && ev.e.Key? && Accepts(ev.e.key.modifiers) ==>
        Field(text, cursor) == Edit(Field(old(text), old(cursor)), ev.e.key.code)
      ensures !(ev.Terminal? && ev.e.Key? && Accepts(ev.e.key.modifiers)) ==>
        text == old(text) && cursor == old(cursor)
    {
      if ev.Terminal? && ev.e.Key? {
        var k := ev.e.key;
        EditKeepsSound(Field(text, cursor), k.code);
        if k.modifiers != {} && Shift !in k.modifiers {
          return;
        }
        match k.code {
          case Char(c) =>
            text := text[..cursor] + [c] + text[cursor..];
            cursor := cursor + 1;
          case Backspace =>
            if cursor > 0 {
              text := text[..cursor - 1] + text[cursor..];
              cursor := cursor - 1;
            }
          case Delete =>
            if |text| > cursor {
              text := text[..cursor] + text[cursor + 1..];
            }
          case Left =>
            if cursor > 0 {
              cursor := cursor - 1;
            }
          case Right =>
            if cursor < |text| {
              cursor := cursor + 1;
            }
          case _ =>
        }
      }
    }

    /** `render`: the text at the origin and, when focused, the character under the
        cursor inverted at the cursor's column, or an inverted space just past the
        end of the text. Columns are `u16` casts, which keep the low 16 bits. */
    function Render(focused: bool): (r: seq<Drawn>)
      reads this
      ensures |r| == if focused then 2 else 1
      ensures r[0] == Plain(0, 0, text)
      ensures focused && cursor < |text| ==> r[1] == Inverted(cursor % 0x1_0000, 0, [text[cursor]])
      ensures focused && cursor >= |text| ==> r[1] == Inverted(ByteLen(text) % 0x1_0000, 0, " ")
    {
      [Plain(0, 0, text)] +
      if !focused then []
      else if cursor < |text| then [Inverted(cursor % 0x1_0000, 0, [text[cursor]])]
      else [Inverted(ByteLen(text) % 0x1_0000, 0, " ")]
    }
  }

  /** On ASCII text the space past the end sits in the column right after the text. */
  lemma RenderCaretAfterText(input: Input)
    requires input.Valid() && input.cursor == |input.text|
    ensures input.Render(true)[1] == Inverted(|input.text| % 0x1_0000, 0, " ")
  {
    AsciiByteLen(input.text);
  }
}
