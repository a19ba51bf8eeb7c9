/** The editing modes (the `Mode` enum of src/editor.rs and of the
    keymapper revision). */
module Modes {

  datatype Mode = Normal | Command | Insert

  /** `Mode::to_str`: the name the status bar shows for a mode. */
  function ToStr(m: Mode): (s: string)
    ensures |s| > 0
    ensures s == "--insert--" <==> m == Insert
  {
    match m
    case Normal => "Normal"
    case Command => "Command"
    case Insert => "--insert--"
  }

  /** Distinct modes get distinct names. */
  lemma ToStrInjective(a: Mode, b: Mode)
    ensures ToStr(a) == ToStr(b) <==> a == b
  {
  }
}
