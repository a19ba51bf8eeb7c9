/** The mode-scoped key table of src/keymapper.rs and the editor actions it
    binds. Each boxed closure of the source is an `Action`; `Apply` says
    what an action does to the editor's state and `Defined` says when it
    runs without a panic (a u16 overflow, a rope index out of range). The
    class `Editor` performs the actions in place. */
module Keymapper {
  import opened Support
  import opened Strings
  import opened Rope
  import opened Keys
  import opened Modes

  /** The editor closures, by what they do. */
  datatype Action =
    | Stop              // is_running = false
    | CursorDown        // 'j'
    | CursorUp          // 'k'
    | CursorLeft        // 'h'
    | CursorRight       // 'l'
    | EnterCommand      // mode = Command, command cleared
    | ToNormal          // mode = Normal
    | LeaveCommand      // mode = Normal, command = max_w blanks
    | PushCommand(c: char)
    | ExecuteCommand
    | ToInsert
    | InsertTab
    | InsertNewline
    | InsertChar(c: char)
    | DeleteBack

  type KeyMap = map<KeyEvent, Action>

  /** One key map per mode. */
  datatype Mapper = Mapper(nmaps: KeyMap, imaps: KeyMap, cmaps: KeyMap)

  /** `Mapper::new()`: every mode starts with an empty map. */
  function NewMapper(): Mapper
  {
    Mapper(map[], map[], map[])
  }

  /** `get_map(mode)`. */
  function GetMap(m: Mapper, mode: Mode): KeyMap
  {
    match mode
    case Normal => m.nmaps
    case Insert => m.imaps
    case Command => m.cmaps
  }

  /** The mapper with the map of `mode` replaced (what `get_map_mut`
      gives access to). */
  function SetMap(m: Mapper, mode: Mode, km: KeyMap): Mapper
  {
    match mode
    case Normal => m.(nmaps := km)
    case Insert => m.(imaps := km)
    case Command => m.(cmaps := km)
  }

  /** A new mapper has an empty map in every mode; writing the map of one
      mode replaces that map and leaves the other two as they were. */
  lemma MapperAccess(m: Mapper, mode: Mode, other: Mode, km: KeyMap)
    ensures GetMap(NewMapper(), mode) == map[]
    ensures GetMap(SetMap(m, mode, km), mode) == km
    ensures other != mode ==> GetMap(SetMap(m, mode, km), other) == GetMap(m, other)
  {
  }

  /** `get_mapping(mode, event)`: the binding of `event` in the map of
      `mode` only. */
  function GetMapping(m: Mapper, mode: Mode, k: KeyEvent): (r: Option<Action>)
    ensures r.Some? <==> k in GetMap(m, mode)
  {
    if k in GetMap(m, mode) then Some(GetMap(m, mode)[k]) else None
  }

  /** `insert_mapping(mode, key, event)`: afterwards `key` in `mode` is
      bound to `a`, whatever it was bound to before, and every other
      binding is as it was. */
  function InsertMapping(m: Mapper, mode: Mode, key: KeyEvent, a: Action): (r: Mapper)
    ensures GetMapping(r, mode, key) == Some(a)
    ensures forall md, k :: (md != mode || k != key) ==> GetMapping(r, md, k) == GetMapping(m, md, k)
  {
    SetMap(m, mode, GetMap(m, mode)[key := a])
  }

  /** What `insert_mapping_chain` binds a character to: push it onto the
      command in Command mode, insert it into the text in Insert mode. */
  function ChainAction(mode: Mode, c: char): Action
  {
    if mode == Command then PushCommand(c) else InsertChar(c)
  }

  /** The keys `insert_mapping_chain(mode, keys, modifier)` binds. */
  predicate InChain(mode: Mode, keys: string, modifier: Modifiers, k: KeyEvent)
  {
    mode != Normal && k.modifiers == modifier && k.code.Char? && k.code.c in keys
  }

  /** The binding of `k` in `md` once the chain is in. */
  function ChainBinding(m: Mapper, mode: Mode, keys: string, modifier: Modifiers, md: Mode, k: KeyEvent): Option<Action>
  {
    if md == mode && InChain(mode, keys, modifier, k) then Some(ChainAction(mode, k.code.c))
    else GetMapping(m, md, k)
  }

  /** `insert_mapping_chain(mode, keys, modifier)`: bind every character of
      `keys`, held with `modifier`, to its chain action in `mode`; Normal
      mode gets nothing. */
  method InsertMappingChain(m: Mapper, mode: Mode, keys: string, modifier: Modifiers) returns (r: Mapper)
    ensures forall md, k :: GetMapping(r, md, k) == ChainBinding(m, mode, keys, modifier, md, k)
  {
    r := m;
    for i := 0 to |keys|
      invariant forall md, k :: GetMapping(r, md, k) == ChainBinding(m, mode, keys[..i], modifier, md, k)
    {
      var c := keys[i];
      assert keys[..i + 1] == keys[..i] + [c];
      match mode {
        case Command =>
          r := InsertMapping(r, mode, KeyEvent(Char(c), modifier), PushCommand(c));
        case Insert =>
          r := InsertMapping(r, mode, KeyEvent(Char(c), modifier), InsertChar(c));
        case Normal =>
      }
    }
    assert keys[..|keys|] == keys;
  }

  /** The characters from `lo` to `hi`, in order (`(lo..=hi)`). */
  function CharRange(lo: char, hi: char): (r: string)
    requires lo <= hi && hi as int < 0xD800
    ensures forall c :: c in r <==> lo <= c <= hi
  {
    var r := seq(hi as int - lo as int + 1, i requires 0 <= i <= hi as int - lo as int => (lo as int + i) as char);
    forall c | lo <= c <= hi ensures c in r {
      assert r[c as int - lo as int] == c;
    }
    r
  }

  /** The punctuation `key_adder` binds. */
  const Punctuation: string := "!@#$%^&*()_+-=[]{}\\|\"':;,.<>/?"

  /** The blank is not among the punctuation. */
  lemma SpaceIsNoPunctuation()
    ensures ' ' !in Punctuation
  {
    forall i | 0 <= i < |Punctuation| ensures Punctuation[i] != ' ' {
    }
  }

  /** The keys `key_adder` binds: lower-case letters, digits and the
      punctuation without a modifier, capitals with Shift. */
  predicate AdderKey(k: KeyEvent)
  {
    k.code.Char? &&
    ((k.modifiers == NONE && ('a' <= k.code.c <= 'z' || '0' <= k.code.c <= '9' || k.code.c in Punctuation))
     || (k.modifiers == SHIFT && 'A' <= k.code.c <= 'Z'))
  }

  /** `key_adder(mode)`: bind the printable keys to their chain actions in
      `mode`. */
  method KeyAdder(m: Mapper, mode: Mode) returns (r: Mapper)
    ensures forall md, k :: GetMapping(r, md, k) ==
                           (if md == mode && mode != Normal && AdderKey(k) then Some(ChainAction(mode, k.code.c))
                            else GetMapping(m, md, k))
  {
    r := InsertMappingChain(m, mode, CharRange('a', 'z'), NONE);
    r := InsertMappingChain(r, mode, CharRange('A', 'Z'), SHIFT);
    r := InsertMappingChain(r, mode, CharRange('0', '9'), NONE);
    r := InsertMappingChain(r, mode, Punctuation, NONE);
  }

  /** The key table the editor starts with, stated key by key: the
      reference `key_builder` is checked against. Where the source binds a
      key twice, the second binding is the one listed. */
  function DefaultBinding(mode: Mode, k: KeyEvent, windows: bool): Option<Action>
  {
    match mode
    case Normal => NormalBinding(k, windows)
    case Command => CommandBinding(k)
    case Insert => InsertBinding(k)
  }

  function NormalBinding(k: KeyEvent, windows: bool): Option<Action>
  {
    if k == KeyEvent(Esc, NONE) then Some(Stop)
    else if MotionBinding(k).Some? then MotionBinding(k)
    else if k == KeyEvent(Char(':'), if windows then SHIFT else NONE) then Some(EnterCommand)
    else if k == KeyEvent(Char('i'), NONE) then Some(ToInsert)
    else None
  }

  /** The motion keys of Normal mode. */
  function MotionBinding(k: KeyEvent): Option<Action>
  {
    if k == KeyEvent(Char('j'), NONE) then Some(CursorDown)
    else if k == KeyEvent(Char('k'), NONE) then Some(CursorUp)
    else if k == KeyEvent(Char('h'), NONE) then Some(CursorLeft)
    else if k == KeyEvent(Char('l'), NONE) then Some(CursorRight)
    else None
  }

  function CommandBinding(k: KeyEvent): Option<Action>
  {
    if k == KeyEvent(Esc, NONE) then Some(LeaveCommand)
    else if k == KeyEvent(Enter, NONE) then Some(ExecuteCommand)
    else if AdderKey(k) then Some(PushCommand(k.code.c))
    else None
  }

  function InsertBinding(k: KeyEvent): Option<Action>
  {
    if k == KeyEvent(Tab, NONE) then Some(InsertTab)
    else if k == KeyEvent(Esc, NONE) then Some(ToNormal)
    else if k == KeyEvent(Enter, NONE) then Some(InsertNewline)
    else if k == KeyEvent(Char(' '), NONE) then Some(InsertChar(' '))
    else if k == KeyEvent(Backspace, NONE) then Some(DeleteBack)
    else if AdderKey(k) then Some(InsertChar(k.code.c))
    else None
  }

  /** `key_builder()`: the editor's key table. `windows` stands for
      `cfg!(windows)`, under which ':' is bound with Shift. The bindings go
      in the order of the source: the Normal keys but 'i', the Command
      keys, 'i', the Insert keys. */
  method KeyBuilder(windows: bool) returns (m: Mapper)
    ensures forall mode, k :: GetMapping(m, mode, k) == DefaultBinding(mode, k, windows)
  {
    m := NewMapper();
    m := BindNormalKeys(m, windows);
    m := BindCommandKeys(m);
    m := InsertMapping(m, Normal, KeyEvent(Char('i'), NONE), ToInsert);
    m := BindInsertKeys(m);
  }

  /** The first block of `key_builder`: Esc and the motion keys, then ':'
      (the Normal table without 'i'). */
  method BindNormalKeys(m: Mapper, windows: bool) returns (r: Mapper)
    ensures forall md, k :: md != Normal ==> GetMapping(r, md, k) == GetMapping(m, md, k)
    ensures forall k :: GetMapping(r, Normal, k) ==
                        if NormalBinding(k, windows).Some? && k.code != Char('i') then NormalBinding(k, windows)
                        else GetMapping(m, Normal, k)
  {
    var colon := KeyEvent(Char(':'), if windows then SHIFT else NONE);
    var r1 := InsertMapping(m, Normal, KeyEvent(Esc, NONE), Stop);
    var r2 := BindMotionKeys(r1);
    r := InsertMapping(r2, Normal, colon, EnterCommand);
    forall k
      ensures GetMapping(r, Normal, k) ==
              if NormalBinding(k, windows).Some? && k.code != Char('i') then NormalBinding(k, windows)
              else GetMapping(m, Normal, k)
    {
      if k != colon {
        assert GetMapping(r, Normal, k) == GetMapping(r2, Normal, k);
        if MotionBinding(k).None? {
          assert GetMapping(r2, Normal, k) == GetMapping(r1, Normal, k);
        }
      }
    }
  }

  /** The motion keys j, k, h, l of that block. */
  method BindMotionKeys(m: Mapper) returns (r: Mapper)
    ensures forall md, k :: md != Normal ==> GetMapping(r, md, k) == GetMapping(m, md, k)
    ensures forall k :: GetMapping(r, Normal, k) ==
                        if MotionBinding(k).Some? then MotionBinding(k) else GetMapping(m, Normal, k)
  {
    r := InsertMapping(m, Normal, KeyEvent(Char('j'), NONE), CursorDown);
    r := InsertMapping(r, Normal, KeyEvent(Char('k'), NONE), CursorUp);
    r := InsertMapping(r, Normal, KeyEvent(Char('h'), NONE), CursorLeft);
    r := InsertMapping(r, Normal, KeyEvent(Char('l'), NONE), CursorRight);
  }

  /** The Command block of `key_builder`: Esc twice (the second binding
      wins), the printable keys, Enter. */
  method BindCommandKeys(m: Mapper) returns (r: Mapper)
    ensures forall md, k :: md != Command ==> GetMapping(r, md, k) == GetMapping(m, md, k)
    ensures forall k :: GetMapping(r, Command, k) ==
                        if CommandBinding(k).Some? then CommandBinding(k) else GetMapping(m, Command, k)
  {
    r := InsertMapping(m, Command, KeyEvent(Esc, NONE), ToNormal);
    r := InsertMapping(r, Command, KeyEvent(Esc, NONE), LeaveCommand);
    r := KeyAdder(r, Command);
    r := InsertMapping(r, Command, KeyEvent(Enter, NONE), ExecuteCommand);
  }

  /** The Insert block of `key_builder`: Tab, Esc, Enter, the space bar,
      Backspace, then the printable keys. */
  method BindInsertKeys(m: Mapper) returns (r: Mapper)
    ensures forall md, k :: md != Insert ==> GetMapping(r, md, k) == GetMapping(m, md, k)
    ensures forall k :: GetMapping(r, Insert, k) ==
                        if InsertBinding(k).Some? then InsertBinding(k) else GetMapping(m, Insert, k)
  {
    r := InsertMapping(m, Insert, KeyEvent(Tab, NONE), InsertTab);
    r := InsertMapping(r, Insert, KeyEvent(Esc, NONE), ToNormal);
    r := InsertMapping(r, Insert, KeyEvent(Enter, NONE), InsertNewline);
    r := InsertMapping(r, Insert, KeyEvent(Char(' '), NONE), InsertChar(' '));
    r := InsertMapping(r, Insert, KeyEvent(Backspace, NONE), DeleteBack);
    r := KeyAdder(r, Insert);
    SpaceIsNoPunctuation();
  }

  /** Esc is registered twice for Command mode and the second registration
      wins: Esc leaves Command mode and blanks the command. The space bar is
      bound in Insert mode only. */
  lemma TableQuirks(windows: bool)
    ensures DefaultBinding(Command, KeyEvent(Esc, NONE), windows) == Some(LeaveCommand)
    ensures DefaultBinding(Command, KeyEvent(Char(' '), NONE), windows) == None
    ensures DefaultBinding(Insert, KeyEvent(Char(' '), NONE), windows) == Some(InsertChar(' '))
  {
    assert ' ' !in Punctuation;
  }

  /** The scroll window of this revision of the editor. */
  datatype Screen = Screen(x: nat, y: nat, maxW: nat, maxH: nat)
  {
    /** Assumed to be `y + max_h`, as `bottom()` of src/render.rs. */
    function Bottom(): nat { y + maxH }
  }

  /** The fields of the editor the closures read and write. */
  datatype EditorState = EditorState(
    cursor: (U16, U16),
    screen: Screen,
    command: string,
    mode: Mode,
    isRunning: bool,
    rope: string)

  /** The index in the text of the cursor's position: the start of line
      `cursor.1` plus the column. */
  function TextIndex(s: EditorState): nat
    requires s.cursor.1 <= LenLines(s.rope)
  {
    LineToChar(s.rope, s.cursor.1) + s.cursor.0
  }

  /** `insert_char_to_rope` does not panic: the cursor's line exists (or is
      the one past the end), the insertion point is inside the text and the
      column can still grow. */
  predicate InsertOk(s: EditorState)
  {
    s.cursor.1 <= LenLines(s.rope)
    && LineToChar(s.rope, s.cursor.1) + s.cursor.0 <= |s.rope|
    && s.cursor.0 < U16Max
  }

  /** `insert_char_to_rope(editor, c)`: insert `c` at the cursor and move
      the cursor one column right. */
  function InsertStep(s: EditorState, c: char): EditorState
    requires InsertOk(s)
  {
    var lineIndex := LineToChar(s.rope, s.cursor.1);
    s.(rope := Rope.Insert(s.rope, lineIndex + s.cursor.0, c), cursor := (s.cursor.0 + 1, s.cursor.1))
  }

  /** The Enter closure of Insert mode: `insert_char_to_rope(editor, '\n')`,
      then the cursor goes to column 0 of the next row (overriding the
      column step of the insertion). */
  function LineBroken(s: EditorState): EditorState
    requires InsertOk(s) && s.cursor.1 < U16Max
  {
    s.(rope := Rope.Insert(s.rope, TextIndex(s), '\n'), cursor := (0, s.cursor.1 + 1))
  }

  /** The closures of 'j' and 'k' end by pulling the column back to the
      length of the new line less 2 (its '\n' and one more). */
  function ClampColumn(s: EditorState): EditorState
    requires s.cursor.1 + s.screen.y < LenLines(s.rope)
  {
    var limit := USub(AsU16(LineLen(s.rope, s.cursor.1 + s.screen.y)), 2);
    s.(cursor := (Min(s.cursor.0, limit), s.cursor.1))
  }

  /** The 'j' closure before the column clamp: at the last row of the
      window it scrolls, otherwise it moves down a row, capped. */
  function DownStep(s: EditorState): EditorState
    requires s.cursor.1 != AsU16(s.screen.maxH) ==> s.cursor.1 < U16Max
  {
    if s.cursor.1 == AsU16(s.screen.maxH) then
      s.(screen := s.screen.(x := Min(s.screen.x + 1, Max(s.screen.Bottom(), USub(LenLines(s.rope), 2)))))
    else
      s.(cursor := (s.cursor.0, Min(s.cursor.1 + 1, AsU16(Min(s.screen.Bottom(), USub(LenLines(s.rope), 2))))))
  }

  /** The 'k' closure before the column clamp: at row 0 it scrolls back,
      otherwise it moves up a row. */
  function UpStep(s: EditorState): EditorState
  {
    if s.cursor.1 == 0 then s.(screen := s.screen.(x := USub(s.screen.x, 1)))
    else s.(cursor := (s.cursor.0, s.cursor.1 - 1))
  }

  /** The 'l' closure: one column right, but not past the length of line
      `cursor.1` less 2. It takes that line without adding `screen.y`, so
      it reads nothing of the screen. */
  function RightMoved(s: EditorState): EditorState
    requires s.cursor.0 < U16Max && s.cursor.1 < LenLines(s.rope)
  {
    s.(cursor := (Min(s.cursor.0 + 1, USub(AsU16(LineLen(s.rope, s.cursor.1)), 2)), s.cursor.1))
  }

  /** The Backspace closure does not panic. */
  predicate BackspaceOk(s: EditorState)
  {
    s.cursor == (0, 0) ||
    (s.cursor.1 <= LenLines(s.rope)
     && 1 <= AsU16(LineToChar(s.rope, s.cursor.1)) + s.cursor.0 <= U16Max
     && AsU16(LineToChar(s.rope, s.cursor.1)) + s.cursor.0 <= |s.rope|)
  }

  /** The Backspace closure: at (0, 0) nothing; otherwise remove the
      character before the cursor (the line start goes through `as u16`),
      set the row to `row - usub(row, 1)` when the removed character was on
      another line, and the column to the offset in the new line. */
  function Backspaced(s: EditorState): (r: EditorState)
    requires BackspaceOk(s)
  {
    if s.cursor == (0, 0) then s else BackspaceAt(s, BackIndex(s))
  }

  /** The index of the character Backspace removes. */
  function BackIndex(s: EditorState): nat
    requires BackspaceOk(s) && s.cursor != (0, 0)
  {
    AsU16(LineToChar(s.rope, s.cursor.1)) + s.cursor.0 - 1
  }

  /** Backspace once the index is known: the character at `index` goes,
      the row is adjusted and the column recomputed. */
  function BackspaceAt(s: EditorState, index: nat): (r: EditorState)
    requires index < |s.rope|
    ensures r == s.(rope := r.rope, cursor := r.cursor)
  {
    var rope := Remove(s.rope, index, index + 1);
    s.(rope := rope, cursor := (ColumnOf(rope, index), JoinedRow(s.cursor.1, CharToLine(rope, index))))
  }

  /** The row after Backspace: unchanged when the removed character was on
      the cursor's line, `row - usub(row, 1)` otherwise. */
  function JoinedRow(row: U16, newLine: nat): U16
  {
    if newLine != row then row - USub(row, 1) else row
  }

  /** The offset of character `index` within its line, through `as u16`. */
  function ColumnOf(rope: string, index: nat): U16
    requires index <= |rope|
  {
    var line := CharToLine(rope, index);
    LineCharRoundTrip(rope, line, index);
    AsU16(index - LineToChar(rope, line))
  }

  /** When an action runs without a panic. */
  predicate Defined(a: Action, s: EditorState)
  {
    match a
    case CursorDown =>
      (s.cursor.1 != AsU16(s.screen.maxH) ==> s.cursor.1 < U16Max)
      && DownStep(s).cursor.1 + s.screen.y < LenLines(s.rope)
    case CursorUp => UpStep(s).cursor.1 + s.screen.y < LenLines(s.rope)
    case CursorRight => s.cursor.0 < U16Max && s.cursor.1 < LenLines(s.rope)
    case InsertChar(_) => InsertOk(s)
    case InsertTab =>
      InsertOk(s) && InsertOk(InsertStep(s, ' '))
      && InsertOk(InsertStep(InsertStep(s, ' '), ' '))
      && InsertOk(InsertStep(InsertStep(InsertStep(s, ' '), ' '), ' '))
    case InsertNewline => InsertOk(s) && s.cursor.1 < U16Max
    case DeleteBack => BackspaceOk(s)
    case _ => true
  }

  /** What an action does to the editor. */
  function Apply(a: Action, s: EditorState): EditorState
    requires Defined(a, s)
  {
    match a
    case Stop => s.(isRunning := false)
    case CursorDown => ClampColumn(DownStep(s))
    case CursorUp => ClampColumn(UpStep(s))
    case CursorLeft => s.(cursor := (USub(s.cursor.0, 1), s.cursor.1))
    case CursorRight => RightMoved(s)
    case EnterCommand => s.(mode := Command, command := "")
    case ToNormal => s.(mode := Normal)
    case LeaveCommand => s.(mode := Normal, command := Spaces(s.screen.maxW))
    case PushCommand(c) => s.(command := s.command + [c])
    case ExecuteCommand =>
      s.(isRunning := if s.command == "q" then false else s.isRunning,
         mode := Normal, command := Spaces(s.screen.maxW))
    case ToInsert => s.(mode := Insert)
    case InsertTab => InsertStep(InsertStep(InsertStep(InsertStep(s, ' '), ' '), ' '), ' ')
    case InsertNewline => LineBroken(s)
    case InsertChar(c) => InsertStep(s, c)
    case DeleteBack => Backspaced(s)
  }

  /** Whether the action writes the rope to the editor's file: Enter in
      Command mode with the command "w". */
  predicate Writes(a: Action, s: EditorState)
  {
    a == ExecuteCommand && s.command == "w"
  }

  /** Looking `k` up in the map of the current mode and running the
      closure bound to it, as a caller of `get_mapping` does: an unbound
      key changes nothing, and `None` stands for a closure that panics. */
  function Dispatch(s: EditorState, k: KeyEvent, windows: bool): Option<EditorState>
  {
    match DefaultBinding(s.mode, k, windows)
    case None => Some(s)
    case Some(a) => if Defined(a, s) then Some(Apply(a, s)) else None
  }

  /** The keys of `keys` dispatched one after the other. */
  function DispatchAll(s: EditorState, keys: seq<KeyEvent>, windows: bool): Option<EditorState>
    decreases |keys|
  {
    if keys == [] then Some(s)
    else
      match Dispatch(s, keys[0], windows)
      case None => None
      case Some(t) => DispatchAll(t, keys[1..], windows)
  }

  /** The ':' key of the platform. */
  function ColonKey(windows: bool): KeyEvent
  {
    KeyEvent(Char(':'), if windows then SHIFT else NONE)
  }

  /** The mode changes of the table: Esc in Normal mode stops the editor,
      ':' opens an empty command, 'i' enters Insert mode, Esc in Insert mode
      goes back to Normal, Esc in Command mode goes back to Normal and blanks
      the command. */
  lemma ModeTransitions(s: EditorState, windows: bool)
    ensures s.mode == Normal ==> Dispatch(s, KeyEvent(Esc, NONE), windows) == Some(s.(isRunning := false))
    ensures s.mode == Normal ==> Dispatch(s, ColonKey(windows), windows) == Some(s.(mode := Command, command := ""))
    ensures s.mode == Normal ==> Dispatch(s, KeyEvent(Char('i'), NONE), windows) == Some(s.(mode := Insert))
    ensures s.mode == Insert ==> Dispatch(s, KeyEvent(Esc, NONE), windows) == Some(s.(mode := Normal))
    ensures s.mode == Command ==>
              Dispatch(s, KeyEvent(Esc, NONE), windows) == Some(s.(mode := Normal, command := Spaces(s.screen.maxW)))
  {
  }

  /** In Command mode a printable key is pushed onto the command, but the
      space bar is not bound there and changes nothing. */
  lemma CommandTyping(s: EditorState, windows: bool, c: char)
    requires s.mode == Command
    ensures 'a' <= c <= 'z' || '0' <= c <= '9' ==>
              Dispatch(s, KeyEvent(Char(c), NONE), windows) == Some(s.(command := s.command + [c]))
    ensures Dispatch(s, KeyEvent(Char(' '), NONE), windows) == Some(s)
  {
    CommandKeyBinding(c);
    if 'a' <= c <= 'z' || '0' <= c <= '9' {
      assert DefaultBinding(s.mode, KeyEvent(Char(c), NONE), windows) == Some(PushCommand(c));
      assert Apply(PushCommand(c), s) == s.(command := s.command + [c]);
    }
    assert DefaultBinding(s.mode, KeyEvent(Char(' '), NONE), windows) == None;
  }

  /** Command mode binds a lower-case letter or a digit to pushing it onto
      the command, and leaves the space bar unbound. */
  lemma CommandKeyBinding(c: char)
    ensures 'a' <= c <= 'z' || '0' <= c <= '9' ==>
              CommandBinding(KeyEvent(Char(c), NONE)) == Some(PushCommand(c))
    ensures CommandBinding(KeyEvent(Char(' '), NONE)) == None
  {
    SpaceIsNoPunctuation();
    assert !AdderKey(KeyEvent(Char(' '), NONE));
  }

  /** Typing ':', 'q' and Enter in Normal mode stops the editor, back in
      Normal mode with the command blanked and the text untouched. */
  lemma {:induction false} QuitSequence(s: EditorState, windows: bool)
    requires s.mode == Normal
    ensures DispatchAll(s, [ColonKey(windows), KeyEvent(Char('q'), NONE), KeyEvent(Enter, NONE)], windows)
            == Some(s.(isRunning := false, command := Spaces(s.screen.maxW)))
  {
    var keys := [ColonKey(windows), KeyEvent(Char('q'), NONE), KeyEvent(Enter, NONE)];
    var s1 := s.(mode := Command, command := "");
    var s2 := s1.(command := "q");
    ModeTransitions(s, windows);
    CommandTyping(s1, windows, 'q');
    var s3 := s.(isRunning := false, command := Spaces(s.screen.maxW));
    assert Dispatch(s2, KeyEvent(Enter, NONE), windows) == Some(s3);
    assert DispatchAll(s2, keys[2..], windows) == DispatchAll(s3, [], windows) by {
      assert keys[2..][0] == KeyEvent(Enter, NONE) && keys[2..][1..] == [];
    }
    assert DispatchAll(s1, keys[1..], windows) == DispatchAll(s2, keys[2..], windows) by {
      assert keys[1..][0] == KeyEvent(Char('q'), NONE) && keys[1..][1..] == keys[2..];
    }
  }

  /** Enter in Command mode stops the editor only for the command "q",
      and in every case goes back to Normal with the command blanked; only
      "w" saves. */
  lemma ExecuteStopsOnlyOnQuit(s: EditorState, t: EditorState)
    requires t == Apply(ExecuteCommand, s)
    ensures t.isRunning <==> s.isRunning && s.command != "q"
    ensures t.mode == Normal && t.command == Spaces(s.screen.maxW)
    ensures t.rope == s.rope && t.cursor == s.cursor
    ensures Writes(ExecuteCommand, s) <==> s.command == "w"
  {
  }

  /** 'h' moves one column left and stops at column 0, on the same row. */
  lemma MoveLeftEffect(s: EditorState, t: EditorState)
    requires t == Apply(CursorLeft, s)
    ensures s.cursor.0 == 0 ==> t == s
    ensures s.cursor.0 > 0 ==> t == s.(cursor := (s.cursor.0 - 1, s.cursor.1))
  {
  }

  /** 'l' moves one column right but not past the length of line
      `cursor.1` less 2, on the same row. */
  lemma MoveRightEffect(s: EditorState, t: EditorState)
    requires Defined(CursorRight, s) && t == Apply(CursorRight, s)
    ensures t == s.(cursor := t.cursor)
    ensures t.cursor.1 == s.cursor.1
    ensures t.cursor.0 <= s.cursor.0 + 1 && t.cursor.0 <= USub(AsU16(LineLen(s.rope, s.cursor.1)), 2)
    ensures t.cursor.0 == s.cursor.0 + 1 || t.cursor.0 == USub(AsU16(LineLen(s.rope, s.cursor.1)), 2)
  {
  }

  /** 'j' either scrolls (at the last row of the window) or moves the row
      down, never both: the scroll offset becomes
      `min(x + 1, max(bottom, len_lines - 2))`, a row move goes to
      `min(row + 1, min(bottom, len_lines - 2))`. The column is then
      clamped to the new line's length less 2, so it never grows. */
  lemma MoveDownEffect(s: EditorState, t: EditorState)
    requires Defined(CursorDown, s) && t == Apply(CursorDown, s)
    ensures t.rope == s.rope && t.mode == s.mode && t.command == s.command && t.screen.y == s.screen.y
    ensures s.cursor.1 == AsU16(s.screen.maxH) ==> t.cursor.1 == s.cursor.1 && t.screen.x <= s.screen.x + 1
    ensures s.cursor.1 != AsU16(s.screen.maxH) ==>
              t.screen == s.screen && t.cursor.1 <= s.cursor.1 + 1
              && t.cursor.1 <= AsU16(Min(s.screen.Bottom(), USub(LenLines(s.rope), 2)))
    ensures s.cursor.1 == AsU16(s.screen.maxH) ==>
              t.screen.x == Min(s.screen.x + 1, Max(s.screen.Bottom(), USub(LenLines(s.rope), 2)))
    ensures s.cursor.1 != AsU16(s.screen.maxH) ==>
              t.cursor.1 == Min(s.cursor.1 + 1, AsU16(Min(s.screen.Bottom(), USub(LenLines(s.rope), 2))))
    ensures t.cursor.0 == Min(s.cursor.0, USub(AsU16(LineLen(t.rope, t.cursor.1 + t.screen.y)), 2))
    ensures t.cursor.0 <= s.cursor.0
    ensures t.cursor.1 + t.screen.y < LenLines(t.rope)
    ensures t.cursor.0 <= USub(AsU16(LineLen(t.rope, t.cursor.1 + t.screen.y)), 2)
  {
    assert t == ClampColumn(DownStep(s));
    DownClamped(s, t);
  }

  /** The effect of 'j' stated on the step and the clamp it is made of. */
  lemma DownClamped(s: EditorState, t: EditorState)
    requires s.cursor.1 != AsU16(s.screen.maxH) ==> s.cursor.1 < U16Max
    requires DownStep(s).cursor.1 + DownStep(s).screen.y < LenLines(DownStep(s).rope)
    requires t == ClampColumn(DownStep(s))
    ensures t.rope == s.rope && t.mode == s.mode && t.command == s.command && t.screen.y == s.screen.y
    ensures s.cursor.1 == AsU16(s.screen.maxH) ==> t.cursor.1 == s.cursor.1 && t.screen.x <= s.screen.x + 1
    ensures s.cursor.1 != AsU16(s.screen.maxH) ==>
              t.screen == s.screen && t.cursor.1 <= s.cursor.1 + 1
              && t.cursor.1 <= AsU16(Min(s.screen.Bottom(), USub(LenLines(s.rope), 2)))
    ensures s.cursor.1 == AsU16(s.screen.maxH) ==>
              t.screen.x == Min(s.screen.x + 1, Max(s.screen.Bottom(), USub(LenLines(s.rope), 2)))
    ensures s.cursor.1 != AsU16(s.screen.maxH) ==>
              t.cursor.1 == Min(s.cursor.1 + 1, AsU16(Min(s.screen.Bottom(), USub(LenLines(s.rope), 2))))
    ensures t.cursor.0 == Min(s.cursor.0, USub(AsU16(LineLen(t.rope, t.cursor.1 + t.screen.y)), 2))
    ensures t.cursor.0 <= s.cursor.0
    ensures t.cursor.1 + t.screen.y < LenLines(t.rope)
    ensures t.cursor.0 <= USub(AsU16(LineLen(t.rope, t.cursor.1 + t.screen.y)), 2)
  {
    ClampFacts(DownStep(s));
    DownStepShape(s, DownStep(s));
  }

  /** 'j' before the clamp: a scroll of one line, capped, at the last row
      of the window, otherwise a row move down, capped as the source caps
      it. */
  lemma DownStepShape(s: EditorState, u: EditorState)
    requires s.cursor.1 != AsU16(s.screen.maxH) ==> s.cursor.1 < U16Max
    requires u == DownStep(s)
    ensures u.rope == s.rope && u.mode == s.mode && u.command == s.command && u.screen.y == s.screen.y
    ensures u.cursor.0 == s.cursor.0
    ensures s.cursor.1 == AsU16(s.screen.maxH) ==> u.cursor.1 == s.cursor.1 && u.screen.x <= s.screen.x + 1
    ensures s.cursor.1 != AsU16(s.screen.maxH) ==>
              u.screen == s.screen && u.cursor.1 <= s.cursor.1 + 1
              && u.cursor.1 <= AsU16(Min(s.screen.Bottom(), USub(LenLines(s.rope), 2)))
    ensures s.cursor.1 == AsU16(s.screen.maxH) ==>
              u.screen.x == Min(s.screen.x + 1, Max(s.screen.Bottom(), USub(LenLines(s.rope), 2)))
    ensures s.cursor.1 != AsU16(s.screen.maxH) ==>
              u.cursor.1 == Min(s.cursor.1 + 1, AsU16(Min(s.screen.Bottom(), USub(LenLines(s.rope), 2))))
  {
  }

  /** The column clamp, given the length of the line it clamps to. */
  lemma ClampColumnIs(s: EditorState, len: nat)
    requires s.cursor.1 + s.screen.y < LenLines(s.rope)
    requires len == LineLen(s.rope, s.cursor.1 + s.screen.y)
    ensures ClampColumn(s) == s.(cursor := (Min(s.cursor.0, USub(AsU16(len), 2)), s.cursor.1))
  {
    ClampFacts(s);
  }

  /** The column clamp of 'j' and 'k' changes the column only, to the
      smaller of itself and the line's length less 2: it never grows, and it
      stays within the new line. */
  lemma ClampFacts(u: EditorState)
    requires u.cursor.1 + u.screen.y < LenLines(u.rope)
    ensures ClampColumn(u).cursor == (Min(u.cursor.0, USub(AsU16(LineLen(u.rope, u.cursor.1 + u.screen.y)), 2)), u.cursor.1)
    ensures ClampColumn(u).screen == u.screen && ClampColumn(u).rope == u.rope
    ensures ClampColumn(u).mode == u.mode && ClampColumn(u).command == u.command
    ensures ClampColumn(u).isRunning == u.isRunning
    ensures ClampColumn(u).cursor.0 <= u.cursor.0
    ensures ClampColumn(u).cursor.1 + ClampColumn(u).screen.y < LenLines(ClampColumn(u).rope)
    ensures ClampColumn(u).cursor.0 == Min(u.cursor.0,
              USub(AsU16(LineLen(ClampColumn(u).rope, ClampColumn(u).cursor.1 + ClampColumn(u).screen.y)), 2))
    ensures ClampColumn(u).cursor.0 <=
            USub(AsU16(LineLen(ClampColumn(u).rope, ClampColumn(u).cursor.1 + ClampColumn(u).screen.y)), 2)
  {
  }

  /** 'k' at row 0 scrolls back (stopping at 0), elsewhere moves the row up
      by one; the column is then clamped to the new line's length less 2,
      so it never grows. */
  lemma MoveUpEffect(s: EditorState, t: EditorState)
    requires Defined(CursorUp, s) && t == Apply(CursorUp, s)
    ensures t.rope == s.rope && t.mode == s.mode && t.command == s.command && t.screen.y == s.screen.y
    ensures s.cursor.1 == 0 ==> t.cursor.1 == 0 && t.screen.x == USub(s.screen.x, 1)
    ensures s.cursor.1 != 0 ==> t.screen == s.screen && t.cursor.1 == s.cursor.1 - 1
    ensures t.cursor.0 == Min(s.cursor.0, USub(AsU16(LineLen(t.rope, t.cursor.1 + t.screen.y)), 2))
    ensures t.cursor.0 <= s.cursor.0
    ensures t.cursor.1 + t.screen.y < LenLines(t.rope)
    ensures t.cursor.0 <= USub(AsU16(LineLen(t.rope, t.cursor.1 + t.screen.y)), 2)
  {
    assert t == ClampColumn(UpStep(s));
    UpClamped(s, t);
  }

  /** The effect of 'k' stated on the step and the clamp it is made of. */
  lemma UpClamped(s: EditorState, t: EditorState)
    requires UpStep(s).cursor.1 + UpStep(s).screen.y < LenLines(UpStep(s).rope)
    requires t == ClampColumn(UpStep(s))
    ensures t.rope == s.rope && t.mode == s.mode && t.command == s.command && t.screen.y == s.screen.y
    ensures s.cursor.1 == 0 ==> t.cursor.1 == 0 && t.screen.x == USub(s.screen.x, 1)
    ensures s.cursor.1 != 0 ==> t.screen == s.screen && t.cursor.1 == s.cursor.1 - 1
    ensures t.cursor.0 == Min(s.cursor.0, USub(AsU16(LineLen(t.rope, t.cursor.1 + t.screen.y)), 2))
    ensures t.cursor.0 <= s.cursor.0
    ensures t.cursor.1 + t.screen.y < LenLines(t.rope)
    ensures t.cursor.0 <= USub(AsU16(LineLen(t.rope, t.cursor.1 + t.screen.y)), 2)
  {
    ClampFacts(UpStep(s));
    UpStepShape(s, UpStep(s));
  }

  /** 'k' before the clamp: a scroll back by one line, stopping at 0, at
      row 0, otherwise a row move up. */
  lemma UpStepShape(s: EditorState, u: EditorState)
    requires u == UpStep(s)
    ensures u.rope == s.rope && u.mode == s.mode && u.command == s.command && u.screen.y == s.screen.y
    ensures u.cursor.0 == s.cursor.0
    ensures s.cursor.1 == 0 ==> u.cursor.1 == 0 && u.screen.x == USub(s.screen.x, 1)
    ensures s.cursor.1 != 0 ==> u.screen == s.screen && u.cursor.1 == s.cursor.1 - 1
  {
  }

  /** Backspace at (0, 0) does nothing. Inside a line (a column from 1 to
      the line's length, small enough that no `as u16` truncates) it removes
      exactly the character before the cursor and moves one column left on
      the same row. */
  lemma BackspaceWithinLine(s: EditorState, idx: nat)
    requires s.cursor.1 < LenLines(s.rope)
    requires 1 <= s.cursor.0 <= LineLen(s.rope, s.cursor.1)
    requires idx + 1 == TextIndex(s) <= U16Max
    ensures BackspaceOk(s)
    ensures Backspaced(s).rope == Remove(s.rope, idx, idx + 1)
    ensures Backspaced(s).cursor.0 == s.cursor.0 - 1 && Backspaced(s).cursor.1 == s.cursor.1
    ensures Backspaced(s.(cursor := (0, 0))) == s.(cursor := (0, 0))
  {
    assert idx < |s.rope| && CharToLine(Remove(s.rope, idx, idx + 1), idx) == s.cursor.1
      && LineToChar(Remove(s.rope, idx, idx + 1), s.cursor.1) + (s.cursor.0 - 1) == idx by {
      RemoveWithinLine(s.rope, s.cursor.1, s.cursor.0, idx);
    }
    BackIndexIs(s, idx);
    BackspaceAtShape(s, idx, s.cursor.1, s.cursor.0 - 1);
  }

  /** Backspace at column 0 of row `y + 1` removes the line break that
      ends line `y`, so the text loses a line; the column becomes the offset
      of that break in line `y`, and the row becomes 1 whatever `y` was (the
      row is lowered by `usub(row, 1)`, not by one). */
  lemma BackspaceJoinsLines(s: EditorState, y: nat, idx: nat)
    requires s.cursor == (0, y + 1) && y + 1 < LenLines(s.rope)
    requires idx + 1 == TextIndex(s) <= U16Max
    ensures BackspaceOk(s)
    ensures s.rope[idx] == '\n'
    ensures Backspaced(s).rope == Remove(s.rope, idx, idx + 1)
    ensures LenLines(Backspaced(s).rope) == LenLines(s.rope) - 1
    ensures LineToChar(s.rope, y) <= idx
    ensures Backspaced(s).cursor.0 == idx - LineToChar(s.rope, y) && Backspaced(s).cursor.1 == 1
  {
    var u := Remove(s.rope, idx, idx + 1);
    assert idx < |s.rope| && s.rope[idx] == '\n' && LenLines(u) == LenLines(s.rope) - 1
      && CharToLine(u, idx) == y && LineToChar(s.rope, y) <= idx
      && LineToChar(u, y) == LineToChar(s.rope, y) by {
      RemoveLineBreak(s.rope, y, idx);
    }
    BackIndexIs(s, idx);
    BackspaceAtShape(s, idx, y, idx - LineToChar(s.rope, y));
  }

  /** Away from (0, 0), with a line start below 2^16, Backspace removes
      the character just before the cursor's index. */
  lemma BackIndexIs(s: EditorState, idx: nat)
    requires s.cursor.1 <= LenLines(s.rope) && s.cursor != (0, 0)
    requires idx + 1 == TextIndex(s) <= U16Max && idx < |s.rope|
    ensures BackspaceOk(s) && BackIndex(s) == idx
    ensures Backspaced(s) == BackspaceAt(s, idx)
  {
  }

  /** The state Backspace leaves once the line of the removed character in
      the new text and its column there are known. */
  lemma BackspaceAtShape(s: EditorState, idx: nat, line: nat, col: nat)
    requires idx < |s.rope|
    requires CharToLine(Remove(s.rope, idx, idx + 1), idx) == line
    requires LineToChar(Remove(s.rope, idx, idx + 1), line) + col == idx && col <= U16Max
    ensures BackspaceAt(s, idx) == s.(rope := Remove(s.rope, idx, idx + 1), cursor := (col, JoinedRow(s.cursor.1, line)))
  {
  }

  /** The key that types `c` in Insert mode: capitals with Shift, every
      other character without a modifier. */
  function TypeKey(c: char): KeyEvent
  {
    KeyEvent(Char(c), if 'A' <= c <= 'Z' then SHIFT else NONE)
  }

  /** The keys that type `text`, one per character. */
  function Keystrokes(text: string): (r: seq<KeyEvent>)
    ensures |r| == |text|
  {
    if text == [] then [] else [TypeKey(text[0])] + Keystrokes(text[1..])
  }

  /** The characters Insert mode binds to an insertion: the blank and the
      printable keys of `key_adder`. */
  predicate Typable(c: char)
  {
    c == ' ' || 'a' <= c <= 'z' || 'A' <= c <= 'Z' || '0' <= c <= '9' || c in Punctuation
  }

  /** Inserting one character at the cursor, on an existing line, puts it
      at the cursor's index and moves that index one place on. */
  lemma InsertStepEffect(s: EditorState, c: char, p: nat)
    requires s.cursor.1 < LenLines(s.rope) && p == TextIndex(s) <= |s.rope| && s.cursor.0 < U16Max
    ensures InsertOk(s)
    ensures InsertStep(s, c).rope == Rope.Insert(s.rope, p, c)
    ensures InsertStep(s, c).cursor.0 == s.cursor.0 + 1 && InsertStep(s, c).cursor.1 == s.cursor.1
    ensures s.cursor.1 < LenLines(InsertStep(s, c).rope) && TextIndex(InsertStep(s, c)) == p + 1
  {
    InsertAfterLineStart(s.rope, s.cursor.1, p, c);
  }

  /** In Insert mode a typable key inserts its character. */
  lemma TypedKey(s: EditorState, c: char, windows: bool)
    requires s.mode == Insert && Typable(c)
    ensures Dispatch(s, TypeKey(c), windows) == if InsertOk(s) then Some(InsertStep(s, c)) else None
  {
    TypeKeyBinding(c);
  }

  /** Insert mode binds the key of a typable character to its insertion. */
  lemma TypeKeyBinding(c: char)
    requires Typable(c)
    ensures InsertBinding(TypeKey(c)) == Some(InsertChar(c))
  {
    if c != ' ' && !('A' <= c <= 'Z') {
      assert TypeKey(c) == KeyEvent(Char(c), NONE);
      assert AdderKey(TypeKey(c));
    }
  }

  /** The characters of `text` inserted at the cursor one after the
      other, as the Insert-mode closures do; `None` once one would panic. */
  function Typed(s: EditorState, text: string): Option<EditorState>
    decreases |text|
  {
    if text == [] then Some(s)
    else if InsertOk(s) then Typed(InsertStep(s, text[0]), text[1..])
    else None
  }

  /** In Insert mode the keys of a typable text run the insertions of its
      characters, in order. */
  lemma {:induction false} TypingDispatch(s: EditorState, text: string, windows: bool)
    requires s.mode == Insert
    requires forall i :: 0 <= i < |text| ==> Typable(text[i])
    ensures DispatchAll(s, Keystrokes(text), windows) == Typed(s, text)
    decreases |text|
  {
    if text != [] {
      TypedKey(s, text[0], windows);
      assert Keystrokes(text)[0] == TypeKey(text[0]) && Keystrokes(text)[1..] == Keystrokes(text[1..]);
      if InsertOk(s) {
        TypingDispatch(InsertStep(s, text[0]), text[1..], windows);
      }
    }
  }

  /** Inserting a text at the cursor of an existing line puts it at the
      cursor's index and moves the column past it, as long as the column
      stays a u16; nothing else changes. */
  lemma {:induction false} TypedInsertsText(s: EditorState, text: string, p: nat)
    requires s.cursor.1 < LenLines(s.rope)
    requires p == TextIndex(s) <= |s.rope| && s.cursor.0 + |text| <= U16Max
    ensures Typed(s, text).Some?
    ensures Typed(s, text).value.rope == s.rope[..p] + text + s.rope[p..]
    ensures Typed(s, text).value.cursor.0 == s.cursor.0 + |text| && Typed(s, text).value.cursor.1 == s.cursor.1
    ensures Typed(s, text).value == s.(rope := Typed(s, text).value.rope, cursor := Typed(s, text).value.cursor)
    decreases |text|
  {
    if text == [] {
      assert s.rope[..p] + text + s.rope[p..] == s.rope;
    } else {
      InsertStepEffect(s, text[0], p);
      TypedInsertsText(InsertStep(s, text[0]), text[1..], p + 1);
      InsertThenRest(s.rope, p, text);
    }
  }

  /** In Insert mode, typing a text of printable characters on an existing
      line puts the text at the cursor, moves the column past it and
      changes nothing else, as long as the column stays a u16. */
  lemma TypingInsertsText(s: EditorState, text: string, p: nat, windows: bool)
    requires s.mode == Insert && s.cursor.1 < LenLines(s.rope)
    requires p == TextIndex(s) <= |s.rope| && s.cursor.0 + |text| <= U16Max
    requires forall i :: 0 <= i < |text| ==> Typable(text[i])
    ensures DispatchAll(s, Keystrokes(text), windows) == Typed(s, text)
    ensures Typed(s, text).Some?
    ensures Typed(s, text).value.rope == s.rope[..p] + text + s.rope[p..]
    ensures Typed(s, text).value.cursor.0 == s.cursor.0 + |text| && Typed(s, text).value.cursor.1 == s.cursor.1
    ensures Typed(s, text).value == s.(rope := Typed(s, text).value.rope, cursor := Typed(s, text).value.cursor)
  {
    TypingDispatch(s, text, windows);
    TypedInsertsText(s, text, p);
  }

  /** The Tab closure is four blanks inserted one after the other: it
      runs exactly when they can be, and leaves the same editor. */
  lemma TabIsTyping(s: EditorState)
    ensures Defined(InsertTab, s) <==> Typed(s, "    ").Some?
    ensures Defined(InsertTab, s) ==> Apply(InsertTab, s) == Typed(s, "    ").value
  {
    assert "    "[0] == ' ' && "    "[1..] == "   ";
    assert "   "[0] == ' ' && "   "[1..] == "  ";
    assert "  "[0] == ' ' && "  "[1..] == " ";
    assert " "[0] == ' ' && " "[1..] == "";
  }

  /** Tab in Insert mode does what typing four blanks does (and so, by
      `TypedInsertsText`, puts them at the cursor and moves the column four
      places on an existing line), panics included. */
  lemma TabInsertsFourBlanks(s: EditorState, windows: bool)
    requires s.mode == Insert
    ensures Dispatch(s, KeyEvent(Tab, NONE), windows) == Typed(s, "    ")
    ensures DispatchAll(s, Keystrokes("    "), windows) == Typed(s, "    ")
  {
    TabIsTyping(s);
    assert forall i :: 0 <= i < |"    "| ==> Typable("    "[i]);
    TypingDispatch(s, "    ", windows);
  }

  /** Enter in Insert mode, with the cursor's index on the cursor's line,
      puts a '\n' there: the text gains a line and the cursor goes to
      column 0 of the next row, which is where the new line starts. */
  lemma EnterBreaksLine(s: EditorState, p: nat, windows: bool)
    requires s.mode == Insert && s.cursor.1 < LenLines(s.rope)
    requires p == TextIndex(s) <= |s.rope| && CharToLine(s.rope, p) == s.cursor.1
    requires s.cursor.0 < U16Max && s.cursor.1 < U16Max
    ensures Dispatch(s, KeyEvent(Enter, NONE), windows).Some?
    ensures Dispatch(s, KeyEvent(Enter, NONE), windows).value.rope == Rope.Insert(s.rope, p, '\n')
    ensures LenLines(Dispatch(s, KeyEvent(Enter, NONE), windows).value.rope) == LenLines(s.rope) + 1
    ensures Dispatch(s, KeyEvent(Enter, NONE), windows).value.cursor.0 == 0
    ensures Dispatch(s, KeyEvent(Enter, NONE), windows).value.cursor.1 == s.cursor.1 + 1
    ensures TextIndex(Dispatch(s, KeyEvent(Enter, NONE), windows).value) == p + 1
  {
    InsertStepEffect(s, '\n', p);
    assert Dispatch(s, KeyEvent(Enter, NONE), windows) == Some(LineBroken(s)) by {
      assert DefaultBinding(s.mode, KeyEvent(Enter, NONE), windows) == Some(InsertNewline);
    }
    LineBrokenEffect(s, p);
  }

  /** The Enter closure puts a '\n' at the cursor's index and moves to the
      start of the new line, which begins right after it. */
  lemma LineBrokenEffect(s: EditorState, p: nat)
    requires s.cursor.1 < LenLines(s.rope)
    requires p == TextIndex(s) <= |s.rope| && CharToLine(s.rope, p) == s.cursor.1
    requires s.cursor.0 < U16Max && s.cursor.1 < U16Max
    ensures InsertOk(s)
    ensures LineBroken(s).rope == Rope.Insert(s.rope, p, '\n')
    ensures LenLines(LineBroken(s).rope) == LenLines(s.rope) + 1
    ensures LineBroken(s).cursor.0 == 0 && LineBroken(s).cursor.1 == s.cursor.1 + 1
    ensures TextIndex(LineBroken(s)) == p + 1
  {
    var u := Rope.Insert(s.rope, p, '\n');
    var r := LineBroken(s);
    assert r.rope == u && r.cursor.0 == 0 && r.cursor.1 == s.cursor.1 + 1;
    assert LenLines(u) == LenLines(s.rope) + 1 && LineToChar(u, s.cursor.1 + 1) == p + 1 by {
      InsertLineBreak(s.rope, s.cursor.1, p);
    }
  }

  /** The editor record the closures mutate. */
  class Editor {
    var cursor: (U16, U16)
    var screen: Screen
    var command: string
    var mode: Mode
    var isRunning: bool
    var rope: string

    function State(): EditorState
      reads this
    {
      EditorState(cursor, screen, command, mode, isRunning, rope)
    }

    /** `insert_char_to_rope(editor, c)`. */
    method InsertCharToRope(c: char)
      requires InsertOk(State())
      modifies this
      ensures State() == InsertStep(old(State()), c)
    {
      var lineIndex := LineToChar(rope, cursor.1);
      rope := Rope.Insert(rope, lineIndex + cursor.0, c);
      cursor := (cursor.0 + 1, cursor.1);
    }

    /** The column clamp that ends the 'j' and 'k' closures. */
    method ClampColumnStep()
      requires cursor.1 + screen.y < LenLines(rope)
      modifies this
      ensures State() == ClampColumn(old(State()))
    {
      ghost var s0 := State();
      var len := LineLen(rope, cursor.1 + screen.y);
      ClampColumnIs(s0, len);
      cursor := (Min(cursor.0, USub(AsU16(len), 2)), cursor.1);
      assert State() == s0.(cursor := cursor);
    }

    /** The closure bound to 'j'. */
    method MoveDown()
      requires Defined(CursorDown, State())
      modifies this
      ensures State() == Apply(CursorDown, old(State()))
    {
      ghost var s0 := State();
      if cursor.1 == AsU16(screen.maxH) {
        screen := screen.(x := Min(screen.x + 1, Max(screen.Bottom(), USub(LenLines(rope), 2))));
      } else {
        cursor := (cursor.0, Min(cursor.1 + 1, AsU16(Min(screen.Bottom(), USub(LenLines(rope), 2)))));
      }
      assert State() == DownStep(s0);
      ClampColumnStep();
    }

    /** The closure bound to 'l'. */
    method MoveRight()
      requires cursor.0 < U16Max && cursor.1 < LenLines(rope)
      modifies this
      ensures State() == RightMoved(old(State()))
    {
      ghost var s0 := State();
      var limit := USub(AsU16(LineLen(rope, cursor.1)), 2);
      var c := (Min(cursor.0 + 1, limit), cursor.1);
      assert RightMoved(s0) == s0.(cursor := c);
      cursor := c;
      assert State() == s0.(cursor := c);
    }

    /** The closure bound to 'k'. */
    method MoveUp()
      requires Defined(CursorUp, State())
      modifies this
      ensures State() == Apply(CursorUp, old(State()))
    {
      ghost var s0 := State();
      if cursor.1 == 0 {
        screen := screen.(x := USub(screen.x, 1));
      } else {
        cursor := (cursor.0, cursor.1 - 1);
      }
      assert State() == UpStep(s0);
      ClampColumnStep();
    }

    /** The closure bound to Enter in Command mode; `wrote` tells whether
        it saved the rope. */
    method Execute() returns (wrote: bool)
      modifies this
      ensures State() == Apply(ExecuteCommand, old(State()))
      ensures wrote <==> Writes(ExecuteCommand, old(State()))
    {
      wrote := false;
      if command == "q" {
        isRunning := false;
      } else if command == "w" {
        wrote := true;
      }
      mode := Normal;
      command := Spaces(screen.maxW);
    }

    /** The closure bound to Backspace in Insert mode. */
    method Backspace()
      requires BackspaceOk(State())
      modifies this
      ensures State() == Backspaced(old(State()))
    {
      if cursor == (0, 0) {
        return;
      }
      ghost var s0 := State();
      var lineIndex := LineToChar(rope, cursor.1);
      var index := AsU16(lineIndex) + cursor.0 - 1;
      assert index == BackIndex(s0);
      ghost var r := BackspaceAt(s0, index);
      assert Backspaced(s0) == r;
      rope := Rope.Remove(rope, index, index + 1);
      assert rope == r.rope;
      var newLine := CharToLine(rope, index);
      if newLine != cursor.1 {
        cursor := (cursor.0, cursor.1 - USub(cursor.1, 1));
      }
      assert cursor.1 == r.cursor.1;
      cursor := (ColumnOf(rope, index), cursor.1);
      assert State() == s0.(rope := r.rope, cursor := r.cursor);
    }

    /** The closure bound to Tab in Insert mode. */
    method Tabulate()
      requires Defined(InsertTab, State())
      modifies this
      ensures State() == Apply(InsertTab, old(State()))
    {
      InsertCharToRope(' ');
      InsertCharToRope(' ');
      InsertCharToRope(' ');
      InsertCharToRope(' ');
    }

    /** The closure bound to Enter in Insert mode. */
    method BreakLine()
      requires Defined(InsertNewline, State())
      modifies this
      ensures State() == Apply(InsertNewline, old(State()))
    {
      InsertCharToRope('\n');
      cursor := (0, cursor.1 + 1);
    }

    /** Run the closure of action `a`. `wrote` tells whether it saved the
        rope to the editor's file. */
    method Run(a: Action) returns (wrote: bool)
      requires Defined(a, State())
      modifies this
      ensures State() == Apply(a, old(State()))
      ensures wrote <==> Writes(a, old(State()))
    {
      wrote := false;
      match a {
        case Stop => isRunning := false;
        case CursorDown => MoveDown();
        case CursorUp => MoveUp();
        case CursorLeft => cursor := (USub(cursor.0, 1), cursor.1);
        case CursorRight => MoveRight();
        case EnterCommand =>
          mode := Command;
          command := "";
        case ToNormal => mode := Normal;
        case LeaveCommand =>
          mode := Normal;
          command := Spaces(screen.maxW);
        case PushCommand(c) => command := command + [c];
        case ExecuteCommand => wrote := Execute();
        case ToInsert => mode := Insert;
        case InsertTab => Tabulate();
        case InsertNewline => BreakLine();
        case InsertChar(c) => InsertCharToRope(c);
        case DeleteBack => Backspace();
      }
    }
  }
}
