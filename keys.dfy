/** The terminal events the elements react to (crossterm's `Event`, `KeyEvent`,
    `KeyCode` and `KeyModifiers`), reduced to the cases this library distinguishes. */
module Keys {
  import opened Common

  /** The key codes the elements match on; every other code is `OtherKey`. */
  datatype KeyCode =
    | Char(c: char)
    | Backspace
    | Delete
    | Enter
    | Left
    | Right
    | Up
    | Down
    | Tab
    | BackTab
    | OtherKey(code: nat)

  datatype Modifier = Shift | Control | Alt | OtherModifier(bit: nat)

  /** A key press: its code and the set of modifiers held. */
  datatype KeyEvent = KeyEvent(code: KeyCode, modifiers: set<Modifier>)

  /** A terminal event: a key press, or another kind (mouse, resize, focus, paste). */
  datatype TermEvent = Key(key: KeyEvent) | OtherTermEvent(kind: nat)

  /** The event an element receives: a terminal event, or an event of another type,
      which `event.get::<crossterm::event::Event>()` does not recognise. */
  datatype AppEvent = Terminal(e: TermEvent) | Custom(kind: nat)

  /** The key code of an element event, when it is a key press. */
  function CodeOf(ev: AppEvent): Option<KeyCode>
  {
    if ev.Terminal? && ev.e.Key? then Some(ev.e.key.code) else None
  }
}
