/** The `Div` and `Input` elements of `src/ui/mod.rs`. A `Div` holds a list of
    child elements and the index of the focused one, which Tab and BackTab cycle;
    `Input` is a line editor that only appends and pops. */
module Ui {
  import opened Common
  import Keys
  import Paginator

  /** The terminal events these elements see: a key press, focus gained or lost by
      the element, and any other event. */
  datatype UiEvent = KeyPress(key: Keys.KeyEvent) | FocusGained | FocusLost | OtherEvent(kind: nat)

  /** An element's children: child elements (identities) with the focused index, or
      text, or nothing. */
  datatype Children = Nodes(elems: seq<nat>, index: nat) | TextChildren(text: string) | NoChildren

  /** `get_child_idx` yields the focused child exactly when the children are elements
      and the index is on one of them. */
  predicate HasFocusedChild(c: Children)
  {
    c.Nodes? && c.index < |c.elems|
  }

  function KeyCodeOf(ev: UiEvent): Option<Keys.KeyCode>
  {
    if ev.KeyPress? then Some(ev.key.code) else None
  }

  /** The index after an event among `len` children (lines 59-75): Tab steps on,
      wrapping from the last child to the first, BackTab steps back, wrapping from
      the first to the last; anything else keeps it. */
  function Cycle(index: nat, len: nat, ev: UiEvent): (r: nat)
    requires index < len
    ensures r < len
    ensures KeyCodeOf(ev) == Some(Keys.Tab) ==> r == (index + 1) % len
    ensures KeyCodeOf(ev) == Some(Keys.BackTab) ==> r == (index + len - 1) % len
    ensures KeyCodeOf(ev) != Some(Keys.Tab) && KeyCodeOf(ev) != Some(Keys.BackTab) ==> r == index
  {
    WrapSteps(index, len);
    match KeyCodeOf(ev)
    case Some(Tab) => if index < len - 1 then index + 1 else 0
    case Some(BackTab) => if index > 0 then index - 1 else len - 1
    case _ => index
  }

  /** The `Div` cycles exactly as the paginator does, on an index within range. */
  lemma CycleIsPaginator(index: nat, len: nat, ev: UiEvent)
    requires index < len && index < USIZE_MAX
    ensures KeyCodeOf(ev) == Some(Keys.Tab) ==> Cycle(index, len, ev) == Paginator.NextIndex(index, len)
    ensures KeyCodeOf(ev) == Some(Keys.BackTab) ==> Cycle(index, len, ev) == Paginator.PreviousIndex(index, len)
  {
  }

  /** Tab then BackTab, and BackTab then Tab, come back to the same child. */
  lemma CycleInverse(index: nat, len: nat, mods: set<Keys.Modifier>)
    requires index < len
    ensures var tab, back := KeyPress(Keys.KeyEvent(Keys.Tab, mods)), KeyPress(Keys.KeyEvent(Keys.BackTab, mods));
      Cycle(Cycle(index, len, tab), len, back) == index && Cycle(Cycle(index, len, back), len, tab) == index
  {
  }

  /** The events `Div::event` delivers, as written (lines 56-80): each is a pair of
      a child element and the event it receives. Tab and BackTab send FocusLost and
      then FocusGained to the child that was focused before the index moved;
      everything else goes to the focused child unchanged. */
  function Deliveries(c: Children, ev: UiEvent): (r: seq<(nat, UiEvent)>)
  {
    if !HasFocusedChild(c) then []
    else
      var child := c.elems[c.index];
      if KeyCodeOf(ev) == Some(Keys.Tab) || KeyCodeOf(ev) == Some(Keys.BackTab) then
        [(child, FocusLost), (child, FocusGained)]
      else [(child, ev)]
  }

  /** What the Tab/BackTab handling evidently intends: the child losing focus is
      the old one and the child gaining it is the new one. */
  function DeliveriesIntended(c: Children, ev: UiEvent): (r: seq<(nat, UiEvent)>)
  {
    if !HasFocusedChild(c) then []
    else
      var child := c.elems[c.index];
      if KeyCodeOf(ev) == Some(Keys.Tab) || KeyCodeOf(ev) == Some(Keys.BackTab) then
        [(child, FocusLost), (c.elems[Cycle(c.index, |c.elems|, ev)], FocusGained)]
      else [(child, ev)]
  }

  /** As written, the child that gains focus is never told: with two children and
      the first focused, Tab moves the index to the second child but sends both
      focus events to the first. */
  lemma FocusGainedGoesToOldChild(a: nat, b: nat, mods: set<Keys.Modifier>)
    requires a != b
    ensures var c := Nodes([a, b], 0); var tab := KeyPress(Keys.KeyEvent(Keys.Tab, mods));
      Cycle(0, 2, tab) == 1 &&
      Deliveries(c, tab) == [(a, FocusLost), (a, FocusGained)] &&
      (b, FocusGained) !in Deliveries(c, tab)
  {
    var tab := KeyPress(Keys.KeyEvent(Keys.Tab, mods));
    assert Deliveries(Nodes([a, b], 0), tab)[1] == (a, FocusGained);
  }

  /** In the intended version focus moves: the old child loses it and the child at
      the new index gains it; all other events go to the focused child as before. */
  lemma FocusMovesToNewChild(c: Children, ev: UiEvent)
    requires HasFocusedChild(c)
    ensures KeyCodeOf(ev) == Some(Keys.Tab) || KeyCodeOf(ev) == Some(Keys.BackTab) ==>
      var r := DeliveriesIntended(c, ev);
      |r| == 2 && r[0] == (c.elems[c.index], FocusLost) &&
      r[1] == (c.elems[Cycle(c.index, |c.elems|, ev)], FocusGained)
    ensures KeyCodeOf(ev) != Some(Keys.Tab) && KeyCodeOf(ev) != Some(Keys.BackTab) ==>
      DeliveriesIntended(c, ev) == Deliveries(c, ev) == [(c.elems[c.index], ev)]
  {
  }

  /** One entry of the frame `Div::render` fills: whether the child is drawn as
      focused, and the child. */
  datatype Framed = Framed(focused: bool, elem: nat)

  /** The style maps of `SetStyle` instructions, applied in order: each extends the
      map, a later key replacing an earlier one. */
  function Extend(css: map<string, nat>, sets: seq<map<string, nat>>): map<string, nat>
  {
    if sets == [] then css else Extend(css, sets[..|sets| - 1]) + sets[|sets| - 1]
  }

  /** The value of a key after the extension is the one in the last map that holds it. */
  lemma {:induction false} ExtendLastWins(css: map<string, nat>, sets: seq<map<string, nat>>, k: string, j: nat)
    requires j < |sets| && k in sets[j]
    requires forall j' :: j < j' < |sets| ==> k !in sets[j']
    ensures k in Extend(css, sets) && Extend(css, sets)[k] == sets[j][k]
    decreases |sets|
  {
    if j < |sets| - 1 {
      var init := sets[..|sets| - 1];
      assert k !in sets[|sets| - 1];
      forall j' | j < j' < |init| ensures k !in init[j'] {
        assert init[j'] == sets[j'];
      }
      ExtendLastWins(css, init, k, j);
    }
  }

  /** A key no map holds keeps its original entry, or stays absent. */
  lemma {:induction false} ExtendUntouched(css: map<string, nat>, sets: seq<map<string, nat>>, k: string)
    requires forall j :: 0 <= j < |sets| ==> k !in sets[j]
    ensures k in Extend(css, sets) <==> k in css
    ensures k in css ==> Extend(css, sets)[k] == css[k]
    decreases |sets|
  {
    if sets != [] {
      var init := sets[..|sets| - 1];
      assert k !in sets[|sets| - 1];
      forall j | 0 <= j < |init| ensures k !in init[j] {
        assert init[j] == sets[j];
      }
      ExtendUntouched(css, init, k);
    }
  }

  /** The document's style table; the rest of the document is not part of this model. */
  class Document {
    var css: map<string, nat>

    constructor (css: map<string, nat>)
      ensures this.css == css
    {
      this.css := css;
    }
  }

  /** The fields of a `Div`: its children and its `SetStyle` instructions. */
  class Div {
    var children: Children
    var instructions: seq<map<string, nat>>

    constructor (children: Children, instructions: seq<map<string, nat>>)
      ensures this.children == children && this.instructions == instructions
    {
      this.children := children;
      this.instructions := instructions;
    }

    /** `event`: moves the index as `Cycle` says and returns the events delivered to
        the children, with the defect shown by `FocusGainedGoesToOldChild`
        corrected: `FocusGained` goes to the child at the new index. With no
        focused child nothing happens. */
    method Event(ev: UiEvent) returns (delivered: seq<(nat, UiEvent)>)
      modifies this
      ensures instructions == old(instructions)
      ensures !HasFocusedChild(old(children)) ==> children == old(children)
      ensures HasFocusedChild(old(children)) ==>
        children == old(children).(index := Cycle(old(children).index, |old(children).elems|, ev))
      ensures HasFocusedChild(children) == HasFocusedChild(old(children))
      ensures delivered == DeliveriesIntended(old(children), ev)
    {
      delivered := [];
      if children.Nodes? && children.index < |children.elems| {
        var child := children.elems[children.index];
        var l := |children.elems|;
        var i := children.index;
        match ev {
          case KeyPress(k) =>
            match k.code {
              case Tab =>
                delivered := delivered + [(child, FocusLost)];
                if i < l - 1 {
                  i := i + 1;
                } else {
                  i := 0;
                }
                delivered := delivered + [(children.elems[i], FocusGained)];
              case BackTab =>
                delivered := delivered + [(child, FocusLost)];
                if i > 0 {
                  i := i - 1;
                } else {
                  i := l - 1;
                }
                delivered := delivered + [(children.elems[i], FocusGained)];
              case _ =>
                delivered := delivered + [(child, ev)];
            }
          case _ =>
            delivered := delivered + [(child, ev)];
        }
        children := children.(index := i);
      }
    }

    /** `render`: one frame entry per child element, in order, marked focused
        exactly when the `Div` itself is focused and the entry is at the index. */
    method Render(focused: bool) returns (frame: seq<Framed>)
      ensures children.Nodes? ==> |frame| == |children.elems|
      ensures children.Nodes? ==> forall i :: 0 <= i < |frame| ==>
        frame[i] == Framed(focused && i == children.index, children.elems[i])
      ensures !children.Nodes? ==> frame == []
    {
      frame := [];
      if children.Nodes? {
        var elems := children.elems;
        var i := 0;
        while i < |elems|
          invariant 0 <= i <= |elems| && |frame| == i
          invariant forall j :: 0 <= j < i ==> frame[j] == Framed(focused && j == children.index, elems[j])
        {
          frame := frame + [Framed(focused && i == children.index, elems[i])];
          i := i + 1;
        }
      }
    }

    /** `initialize`: extends the document's style table with each `SetStyle` map in
        order. */
    method Initialize(document: Document)
      modifies document
      ensures document.css == Extend(old(document.css), instructions)
    {
      var i := 0;
      while i < |instructions|
        invariant 0 <= i <= |instructions|
        invariant document.css == Extend(old(document.css), instructions[..i])
      {
        assert instructions[..i + 1][..i] == instructions[..i];
        document.css := document.css + instructions[i];
        i := i + 1;
      }
      assert instructions[..i] == instructions;
    }
  }

  /** At most one child is drawn as focused, and one is exactly when the `Div` is
      focused and its index is on a child. */
  lemma RenderFocusesOne(frame: seq<Framed>, focused: bool, c: Children)
    requires c.Nodes? && |frame| == |c.elems|
    requires forall i :: 0 <= i < |frame| ==> frame[i] == Framed(focused && i == c.index, c.elems[i])
    ensures forall i, j :: 0 <= i < j < |frame| ==> !(frame[i].focused && frame[j].focused)
    ensures (exists i :: 0 <= i < |frame| && frame[i].focused) <==> focused && HasFocusedChild(c)
  {
    if focused && HasFocusedChild(c) {
      assert frame[c.index].focused;
    }
  }

  // ---------------------------------------------------------------------
  // Input
  // ---------------------------------------------------------------------

  /** Backspace as written (line 195): `remove(len() - 1)` takes a byte index, so
      when the last character is more than one byte long it is not on a character
      boundary and the call panics (None). */
  function BackspaceAsWritten(text: string): (r: Option<string>)
    ensures text == [] ==> r == Some(text)
    ensures text != [] && Utf8Len(text[|text| - 1]) == 1 ==> r == Some(text[..|text| - 1])
    ensures r.None? <==> text != [] && Utf8Len(text[|text| - 1]) > 1
  {
    if text == [] then Some(text)
    else if Utf8Len(text[|text| - 1]) > 1 then None
    else Some(text[..|text| - 1])
  }

  /** A text ending in a two-byte character, such as "é", makes Backspace panic. */
  lemma BackspacePanicsOnMultibyte()
    ensures BackspaceAsWritten("é").None?
  {
  }

  /** What Backspace evidently intends: remove the last character, if any. */
  function Backspace(text: string): (r: string)
    ensures text == [] ==> r == []
    ensures text != [] ==> |r| == |text| - 1 && r == text[..|r|]
  {
    if text == [] then text else text[..|text| - 1]
  }

  /** Backspace undoes typing any character, whatever its encoded length. */
  lemma BackspaceUndoesTyping(text: string, c: char)
    ensures Backspace(text + [c]) == text
    ensures BackspaceAsWritten(text + [c]).Some? <==> Utf8Len(c) == 1
  {
    assert (text + [c])[..|text|] == text;
  }

  /** The typed text after `Input::event`: Backspace removes the last character (the
      corrected `Backspace`), a typed character is appended, and every other event
      leaves the text alone. */
  function EditText(text: string, ev: UiEvent): (r: string)
    ensures KeyCodeOf(ev) == Some(Keys.Backspace) ==> r == Backspace(text)
    ensures KeyCodeOf(ev).Some? && KeyCodeOf(ev).value.Char? ==> r == text + [KeyCodeOf(ev).value.c]
    ensures KeyCodeOf(ev) != Some(Keys.Backspace) && !(KeyCodeOf(ev).Some? && KeyCodeOf(ev).value.Char?) ==>
      r == text
  {
    match KeyCodeOf(ev)
    case Some(Backspace) => Backspace(text)
    case Some(Char(c)) => text + [c]
    case _ => text
  }

  /** The fields of the `ui` `Input`: the children's text, the typed text and the
      placeholder; `on_click` is an opaque handler. */
  class Input {
    const childrenText: string
    var text: string
    const placeholder: string

    constructor (childrenText: string, text: string, placeholder: string)
      ensures this.childrenText == childrenText && this.text == text && this.placeholder == placeholder
    {
      this.childrenText := childrenText;
      this.text := text;
      this.placeholder := placeholder;
    }

    /** `event`: Backspace removes the last character (as `Backspace` says), a typed
        character is appended, and Enter calls `on_click` (reported by `clicked`)
        without touching the text; anything else does nothing. */
    method Event(ev: UiEvent) returns (clicked: bool)
      modifies this
      ensures KeyCodeOf(ev) == Some(Keys.Backspace) ==> text == Backspace(old(text))
      ensures (KeyCodeOf(ev).Some? && KeyCodeOf(ev).value.Char?) ==> text == old(text) + [KeyCodeOf(ev).value.c]
      ensures clicked <==> KeyCodeOf(ev) == Some(Keys.Enter)
      ensures KeyCodeOf(ev) != Some(Keys.Backspace) && !(KeyCodeOf(ev).Some? && KeyCodeOf(ev).value.Char?) ==>
        text == old(text)
      ensures text == EditText(old(text), ev)
    {
      clicked := false;
      if ev.KeyPress? {
        match ev.key.code {
          case Backspace =>
            if |text| > 0 {
              text := text[..|text| - 1];
            }
          case Enter =>
            clicked := true;
          case Char(c) =>
            text := text + [c];
          case _ =>
        }
      }
    }

    /** `render`: the children's text, then the placeholder when nothing is typed or
        the typed text otherwise, then the caret the writer supplies. */
    function Render(caret: string): (r: string)
      reads this
      ensures |r| == |childrenText| + (if text == [] then |placeholder| else |text|) + |caret|
      ensures r[..|childrenText|] == childrenText && r[|r| - |caret|..] == caret
      ensures text == [] ==> r[|childrenText|..|r| - |caret|] == placeholder
      ensures text != [] ==> r[|childrenText|..|r| - |caret|] == text
    {
      childrenText + (if text == [] then placeholder else text) + caret
    }
  }

  /** Typing a character into an empty input shows that character where the
      placeholder was. */
  lemma TypingHidesPlaceholder(input: Input, ev: UiEvent, caret: string)
    requires KeyCodeOf(ev).Some? && KeyCodeOf(ev).value.Char?
    requires input.text == EditText([], ev)
    ensures input.Render(caret) == input.childrenText + [KeyCodeOf(ev).value.c] + caret
  {
    assert input.text == [KeyCodeOf(ev).value.c];
  }

  /** Backspace on a one-character text empties it, so the placeholder shows again. */
  lemma BackspaceShowsPlaceholder(input: Input, c: char, ev: UiEvent, caret: string)
    requires KeyCodeOf(ev) == Some(Keys.Backspace)
    requires input.text == EditText([c], ev)
    ensures input.Render(caret) == input.childrenText + input.placeholder + caret
  {
    assert input.text == [];
  }

  /** Typing a character and erasing it with Backspace shows the input as it was. */
  lemma TypeThenEraseShowsSame(input: Input, t: string, typed: UiEvent, erase: UiEvent, caret: string)
    requires KeyCodeOf(typed).Some? && KeyCodeOf(typed).value.Char? && KeyCodeOf(erase) == Some(Keys.Backspace)
    requires input.text == EditText(EditText(t, typed), erase)
    ensures input.Render(caret) == input.childrenText + (if t == [] then input.placeholder else t) + caret
  {
    BackspaceUndoesTyping(t, KeyCodeOf(typed).value.c);
  }
}
