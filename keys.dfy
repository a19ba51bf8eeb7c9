/** The key events the editor reacts to (crossterm's `KeyEvent`): a key
    code and the set of modifier keys held with it. Two events are the same
    key exactly when both parts are equal. */
module Keys {

  datatype KeyCode =
    | Char(c: char)
    | Esc
    | Enter
    | Tab
    | Backspace
    | Up
    | Down
    | Left
    | Right
    | Other   // any key the editor has no use for

  /** The modifier flags held with a key. */
  datatype Modifiers = Modifiers(shift: bool, control: bool, alt: bool)

  const NONE := Modifiers(false, false, false)
  const SHIFT := Modifiers(true, false, false)
  const CONTROL := Modifiers(false, true, false)

  datatype KeyEvent = KeyEvent(code: KeyCode, modifiers: Modifiers)
}
