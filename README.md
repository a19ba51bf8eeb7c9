# revim, modelled in Dafny

revim ("Rust Edition Vim") is a small modal terminal text editor. This
project models its core and proves properties of the model.

- **Key dispatch in `src/main.rs`.** A key event is handled by the editor's
  mode alone:
  - Normal mode switches modes and moves the cursor.
  - Command mode edits the command line and, on Enter, runs it.
  - Insert mode edits the text.

  The main loop handles keys until the quit flag is set.
- **The editor state in `src/editor.rs`.** This covers the three modes, the
  command parser (`CommandType::new`: a `Save` per `w`, a `Quit` per `q`,
  up to the first blank), `run_command` with its file-name argument, and
  `save`'s choice of file.
- **The text buffer in `src/textbuffer.rs`.** It is a rope of characters
  with a path and a dirty flag, and it has line-addressed insertion.
- **Cursor positions in `src/position.rs`.** These are `u16` coordinates
  that move by a jump up to a clamp.
- **Unsigned subtraction in `src/support.rs`.** `usubtraction` clamps at
  zero.
- **The screen buffer helpers in `src/screen.rs`.** The text becomes a
  flat grid of cells. A slice is copied into it, a character is inserted
  into a row, and the places to redraw are queued.
- **The text formats in `src/render.rs`.** This covers the text area (rows
  padded to the width, tabs widened, blank rows up to the height), the
  padded command bar, where the cursor goes, and `count_char`.
- **The key table in `src/keymapper.rs`.** There is one map per mode from
  key events to editor closures. It is built by `key_builder`. Each closure
  is modelled as an `Action` whose effect on the editor state is `Apply`.
  The closures cover:
  - moving the cursor with column clamping;
  - entering, leaving and running commands;
  - typing characters, Tab and Enter;
  - Backspace, which joins lines.

  This file belongs to a revision of the editor where the editor holds a
  rope, a cursor pair and a scroll window directly. Its model keeps that
  state (`Keymapper.EditorState`) separate from the state in
  `src/editor.rs`.
- **The snake toy `testdisplay.py`.** A snake moves one cell per tick,
  wraps around the field, eats food and grows. The game ends when the
  head lands on the body.

The rope (`ropey::Rope`) is modelled as a sequence of characters, with
'\n' as the only line break (module `Rope`). Module `Strings` models the
parts of Rust's string API that the core uses.

Where the code does something unexpected, the model keeps it and a
contract states it. These quirks are the code's behaviour and are kept as
such:

- In Command mode, Esc is bound twice. The second binding wins and fills
  the command line with blanks (`Keymapper.TableQuirks`).
- The space key is not in the punctuation chain, so in Command mode it
  does nothing.
- Backspace at the start of a line sets the row to 1, whatever row it was
  on. This comes from `cursor.1 -= usub(cursor.1, 1)`
  (`Keymapper.BackspaceJoinsLines`).
- The screen's redraw queue holds a row index first and cell offsets
  after it.
- In Command mode the cursor goes to row `1 + b + max_h`
  (src/render.rs:107), but the command bar is drawn on row `max_h + 1`
  (src/render.rs:88). The two agree only when the window starts at the
  top, b == 0; for b > 0 the cursor sits b rows below the bar
  (`Render.CursorBelowCommandBar`).

## Model

| member | source | states |
|---|---|---|
| Support.AsU16 | src/keymapper.rs:130-133 | the `as u16` cast keeps the low 16 bits: the result is n mod 0x10000, so a value up to 0xFFFF is kept and a larger one comes out smaller |
| Support.USub | src/support.rs:10-19 | `usubtraction(x, y)` is at most x, never undershoots x - y, and is either 0 or exactly x - y |
| Support.USubIdentities | src/support.rs:10-19 | subtracting 0 is the identity and subtracting x gives 0; the result plus y is x exactly when y <= x, and the result is 0 exactly when y >= x |
| Strings.Occurrences | src/render.rs:178-186 | a count of a character is at most the length |
| Strings.OccurrencesZero | src/render.rs:178-186 | the count is zero exactly when the character does not occur |
| Strings.OccurrencesAppend | src/render.rs:178-186 | counts add up over concatenation |
| Strings.Spaces | src/keymapper.rs:200-203 | `vec![" "; n]` collected: n characters, all blanks |
| Strings.PadRight | src/render.rs:167-172 | the line is kept as a prefix, followed by blanks up to the length; a longer line is unchanged |
| Strings.IndexOf | src/screen.rs:1-11 | the first occurrence of a character, or the length when there is none |
| Strings.StripCarriageReturn | src/screen.rs:1-11 | `lines()` drops a trailing '\r' of a line and nothing else: the line is the result followed by '\r' exactly when it ends in '\r', and is the result otherwise |
| Strings.Lines | src/screen.rs:1-11 | `str::lines()`: no line contains '\n', and there are no lines exactly when the text is empty; `LinesRoundTrip` rebuilds the text from them |
| Strings.ReplaceTabs | src/render.rs:155 | `replace("\t", "    ")`: a single tab becomes four blanks and any other single character is kept; three more characters per tab, no tab left, every other character except the blank counted the same; a text with no tab is unchanged |
| Strings.ReplaceTabsAppend | src/render.rs:155 | the replacement works character by character in place: replacing in a concatenation is concatenating the replacements |
| Strings.LinesRoundTrip | src/screen.rs:1-11 | for a non-empty text with no '\r', the lines each followed by '\n' give back the text, with a '\n' added when it did not end in one |
| Strings.ConcatAppend | src/render.rs:149-165 | appending one row to the output appends its text |
| Rope.LenLines | src/textbuffer.rs:62-64 | a rope has at least one line |
| Rope.LineToChar | src/keymapper.rs:266 | `line_to_char(y)` is in range, and `len_lines()` maps to the end; `LineStart` states where the other lines start |
| Rope.LineStart | src/keymapper.rs:266 | line y starts after exactly y line breaks, and every line but the first starts right after a '\n' |
| Rope.CharToLine | src/keymapper.rs:270 | `char_to_line(i)` is a line of the rope |
| Rope.LineStartUnique | src/keymapper.rs:266 | the character after the y-th line break is where line y starts |
| Rope.LineCharRoundTrip | src/keymapper.rs:270-274 | `char_to_line(line_to_char(y)) == y`, and `line_to_char(char_to_line(i))` is the start of the line that holds i |
| Rope.LineBefore | src/keymapper.rs:270 | the number of line breaks before i names a line starting no later than i |
| Rope.Line | src/keymapper.rs:130-133 | `line(y)` is a slice of the rope from line y's start; `LineShape` pins where it ends |
| Rope.LineShape | src/keymapper.rs:130-133 | a line has no inner line break and ends with '\n' exactly when it is not the last line; it runs up to the start of line y + 1, and the last line runs to the end of the text |
| Rope.LineEndsAtBreak | src/keymapper.rs:130-133 | a line break after a line's start means another line follows |
| Rope.LastLineHasNoBreak | src/keymapper.rs:130-133 | a line with no break after its start is the last one |
| Rope.LineLen | src/keymapper.rs:130-133 | `line(y).len_chars()`: the distance from the line's start to the next line's start, or to the end of the text for the last line; it fits in the rope from the line's start |
| Rope.LineLenIsLength | src/keymapper.rs:130-133 | the line length is the length of `line(y)` |
| Rope.Insert | src/keymapper.rs:280-286 | `insert_char(i, c)` puts c at i and shifts the rest by one |
| Rope.InsertLenLines | src/keymapper.rs:280-286 | inserting a character adds a line exactly when it is '\n' |
| Rope.InsertAfterLineStart | src/keymapper.rs:280-286 | inserting at or after a line's start leaves that line's start where it was |
| Rope.InsertThenRest | src/keymapper.rs:227-236 | inserting the first character and then the rest after it inserts the whole text |
| Rope.InsertLineBreak | src/keymapper.rs:242-250 | inserting '\n' in line y adds a line, and line y + 1 starts just after the break |
| Rope.InsertText | src/textbuffer.rs:76 | `insert(i, s)` puts s at i and shifts the rest by |s| |
| Rope.Remove | src/keymapper.rs:268 | `remove(lo..hi)` drops exactly those characters |
| Rope.InsertThenRemove | src/keymapper.rs:268 | removing a character just inserted gives back the rope |
| Rope.RemoveLenLines | src/keymapper.rs:268 | removing a range loses as many lines as line breaks it held |
| Rope.LineStartStable | src/keymapper.rs:268-274 | a change after a line's start leaves that line's start where it was |
| Rope.RemoveWithinLine | src/keymapper.rs:266-274 | deleting a character inside line y leaves the index on line y, which starts where it did |
| Rope.NoBreakBeforeColumn | src/keymapper.rs:266-267 | no line break lies between a line's start and a column inside the line |
| Rope.BreaksBeforeColumn | src/keymapper.rs:266-267 | exactly y line breaks lie before a column of line y |
| Rope.BreaksUpTo | src/keymapper.rs:266-267 | a stretch with no line break keeps the count of breaks before it |
| Rope.RemoveLineBreak | src/keymapper.rs:266-274 | deleting the character before line y + 1's start removes a '\n'; the rope loses a line, and the index lands on line y |
| Screen.CellsLength | src/screen.rs:1-11 | `string_to_vec` truncates nothing: each line takes the longer of its length and w |
| Screen.StringToVec | src/screen.rs:1-11 | `string_to_vec(w, s)`: the cells of the lines of s, each line padded with blanks to w; `CellsLength`, `CellsGridLength` and `CellsGridAt` state its size and contents |
| Screen.CellsGridLength | src/screen.rs:1-11 | lines no longer than w give exactly w cells per line |
| Screen.CellsGridAt | src/screen.rs:1-11 | cell (row j, column k) is character k of line j, or a blank after the line's end |
| Screen.Replaced | src/screen.rs:13-16 | the copy writes src from idx up to the end of dst or of src, and leaves every other cell as it was |
| Screen.RowStartsSpec | src/screen.rs:20 | the indices queued are exactly the multiples of w in [idx, end), in increasing order |
| Screen.ReplaceFrom | src/screen.rs:13-21 | `replace_from` changes the buffer as `Replaced` says; the queue gets the row index if it was empty, then every row start the copy covers |
| Screen.Shifted | src/screen.rs:23-31 | inserting at idx puts chr there, shifts the next w - 1 cells right by one, and drops the last of them; nothing else changes |
| Screen.InsertAt | src/screen.rs:23-31 | `insert_at` changes the buffer as `Shifted` says and queues the redraws of the copy from the row start |
| Screen.WindowRebuilt | src/screen.rs:24-30 | copying back the row window with chr inserted and its last cell popped is the shift |
| Screen.InsertAtQueue | src/screen.rs:23-31 | on an empty queue, insert_at queues the row index and the row start, plus the next row start when idx is not at a row start |
| Screen.RowStart | src/screen.rs:24 | `(idx / w) * w` is the start of the row that holds idx |
| Screen.RowStartsWindow | src/screen.rs:20 | a window from a row start, shorter than two rows, holds that row start and the next one only if it reaches past it |
| Screen.RowStartsConcat | src/screen.rs:20 | row starts of adjacent ranges concatenate |
| Screen.RowStartsGap | src/screen.rs:20 | a range strictly inside one row holds no row start |
| Render.ScreenVectorExtent | src/render.rs:13-36 | the window is max_w wide and max_h high, and its origin is its top-left corner |
| Render.FormatRow | src/render.rs:152-157 | a text row is width long, plus three per tab in its visible part, plus "\r\n" |
| Render.FormatRowShape | src/render.rs:152-157 | a row ends in "\r\n" and holds one '\n'; with no tab it shows the visible part of the line followed by blanks |
| Render.Filler | src/render.rs:160-163 | a filler row is width blanks followed by "\r\n" |
| Render.FormattedRows | src/render.rs:152-159 | one formatted row per line |
| Render.Fillers | src/render.rs:160-163 | the requested number of filler rows |
| Render.TextRows | src/render.rs:149-165 | the rows `format_text` produces: the first height lines formatted, then fillers; `TextRowsShape` states them row by row |
| Render.TextRowsShape | src/render.rs:149-165 | `format_text` gives exactly height rows: the formatted lines, then fillers, with height line breaks in all |
| Render.ConcatNewlines | src/render.rs:160 | rows with one '\n' each add up to as many line breaks as rows |
| Render.CountChar | src/render.rs:178-186 | the loop counts the occurrences of the character |
| Render.FormatText | src/render.rs:149-165 | both loops produce the formatted rows of the first height lines, followed by fillers up to height rows |
| Render.FormatLines | src/render.rs:152-159 | the first loop emits the formatted rows of the first height lines and stops there |
| Render.FormattedRowsSnoc | src/render.rs:152-157 | one more line adds its formatted row at the end |
| Render.FillersSnoc | src/render.rs:160-163 | one more filler adds width blanks and "\r\n" |
| Render.FormattedRowsNewlines | src/render.rs:160 | the formatted rows hold one '\n' per line |
| Render.FormatCommandBar | src/render.rs:167-172 | the command bar is padded with blanks to the width |
| Render.CommandBarText | src/render.rs:80-92 | the bar shows ':' and the command in Command mode, or the command alone otherwise, and is padded to max_w |
| Render.CursorTarget | src/render.rs:105-113 | outside Command mode the cursor goes to the editor's cursor; in Command mode it goes after the command, on the row below `bottom()` |
| Render.CursorAfterCommand | src/render.rs:80-113 | for a window with b == 0 (at the top of the terminal), in Command mode the cursor lands on the command bar's row, just after ':' and the command |
| Render.CursorBelowCommandBar | src/render.rs:80-113 | for a window with b > 0, the Command-mode cursor row `1 + b + max_h` (line 107) is b rows below the bar's row `max_h + 1` (line 88), so the two differ |
| Keymapper.GetMapping | src/keymapper.rs:42-44 | a binding is found exactly when the key is in the map of that mode |
| Keymapper.InsertMapping | src/keymapper.rs:46-49 | the key is bound to the closure in that mode, and every other binding is unchanged |
| Keymapper.InsertMappingChain | src/keymapper.rs:51-72 | every character of the chain is bound with the modifier to push the command (Command) or insert the character (Insert); Normal mode and all other keys are unchanged |
| Keymapper.CharRange | src/keymapper.rs:78 | `(lo..=hi)` holds exactly the characters from lo to hi |
| Keymapper.SpaceIsNoPunctuation | src/keymapper.rs:93 | the blank is not in the punctuation chain |
| Keymapper.KeyAdder | src/keymapper.rs:74-96 | key_adder binds the letters, the shifted capitals, the digits and the punctuation in Command and Insert mode, and nothing in Normal mode |
| Keymapper.KeyBuilder | src/keymapper.rs:99-278 | the built mapper's binding of every mode and key equals the reference table `DefaultBinding` |
| Keymapper.BindNormalKeys | src/keymapper.rs:103-190 | the first block of key_builder binds Esc, the motions and ':' (Shift+':' on Windows) in Normal mode, leaves 'i' for later, and touches no other mode |
| Keymapper.BindMotionKeys | src/keymapper.rs:109-178 | j, k, h and l are bound in Normal mode, and nothing else changes |
| Keymapper.BindCommandKeys | src/keymapper.rs:192-220 | Esc (second binding), the key_adder chains and Enter are bound in Command mode only |
| Keymapper.BindInsertKeys | src/keymapper.rs:227-277 | the Insert block binds Tab, Esc, Enter, the blank, Backspace and the key_adder chains in Insert mode, and touches no other mode |
| Keymapper.TableQuirks | src/keymapper.rs:192-257 | Command-mode Esc is the second closure, the blank is unbound in Command mode, and the blank inserts a blank in Insert mode |
| Keymapper.BackspaceAt | src/keymapper.rs:268-274 | Backspace changes only the rope and the cursor |
| Keymapper.ModeTransitions | src/keymapper.rs:103-241 | Normal Esc stops the editor; ':' enters Command mode with an empty command; 'i' enters Insert mode; Insert Esc returns to Normal; Command Esc returns to Normal with the command blanked |
| Keymapper.CommandTyping | src/keymapper.rs:51-59 | in Command mode, a letter or digit is appended to the command, and the blank changes nothing |
| Keymapper.CommandKeyBinding | src/keymapper.rs:74-96 | lowercase letters and digits push themselves in Command mode; the blank has no binding there |
| Keymapper.QuitSequence | src/keymapper.rs:179-220 | ':', 'q', Enter from Normal mode stops the editor and blanks the command |
| Keymapper.ExecuteStopsOnlyOnQuit | src/keymapper.rs:206-220 | Enter in Command mode stops the editor exactly when the command is "q", writes exactly when it is "w", returns to Normal mode with the command blanked, and leaves rope and cursor alone |
| Keymapper.MoveLeftEffect | src/keymapper.rs:164-168 | 'h' moves the column left by one, and does nothing at column 0 |
| Keymapper.MoveRightEffect | src/keymapper.rs:169-178 | 'l' moves the column right by one, but never past the line length minus 2; nothing but the column changes |
| Keymapper.MoveDownEffect | src/keymapper.rs:109-135 | 'j' at the window's last row scrolls to `min(x + 1, max(bottom, len_lines - 2))` and keeps the row; elsewhere it moves the row to `min(row + 1, min(bottom, len_lines - 2))` and keeps the window; the column becomes the smaller of itself and the new line's length less 2; the row stays in the text |
| Keymapper.DownClamped | src/keymapper.rs:109-135 | the step down followed by the column clamp has the effect `MoveDownEffect` states |
| Keymapper.DownStepShape | src/keymapper.rs:119-129 | the step down keeps the column; at the window's last row it sets the scroll offset to `min(x + 1, max(bottom, len_lines - 2))`, elsewhere the row to `min(row + 1, min(bottom, len_lines - 2))` |
| Keymapper.ClampColumnIs | src/keymapper.rs:130-133 | the clamp sets the column to the smaller of itself and the line length minus 2 |
| Keymapper.ClampFacts | src/keymapper.rs:130-133 | the clamp sets the column to the smaller of itself and the line's length less 2, keeps the row, the window, the rope, the mode, the command and the running flag, and leaves the column within the new line, stated again in terms of the result |
| Keymapper.MoveUpEffect | src/keymapper.rs:137-163 | 'k' moves up a row, or at row 0 scrolls back one line (stopping at 0); the column becomes the smaller of itself and the new line's length less 2; the row stays in the text |
| Keymapper.UpClamped | src/keymapper.rs:137-163 | the step up followed by the column clamp has the effect `MoveUpEffect` states |
| Keymapper.UpStepShape | src/keymapper.rs:137-163 | the step up keeps the column, the rope and `screen.y`; at row 0 it decrements `screen.x`, stopping at 0, and keeps row 0; elsewhere it moves the row up by one and keeps the window |
| Keymapper.BackspaceWithinLine | src/keymapper.rs:258-276 | Backspace inside a line deletes the character before the cursor and moves the cursor one column left; at (0, 0) it does nothing |
| Keymapper.BackspaceJoinsLines | src/keymapper.rs:258-276 | Backspace at a line's start deletes the '\n' before it, so the rope loses a line; the column becomes the end of the previous line and the row becomes 1 |
| Keymapper.BackIndexIs | src/keymapper.rs:266-267 | the deleted index is the line's start plus the column, minus one |
| Keymapper.BackspaceAtShape | src/keymapper.rs:268-274 | after the removal, the cursor is the deleted index's column and the joined row |
| Keymapper.InsertStepEffect | src/keymapper.rs:280-286 | insert_char_to_rope puts the character at the cursor's index and moves the cursor right by one on the same line |
| Keymapper.TypedKey | src/keymapper.rs:60-66 | in Insert mode, a typable key inserts its character |
| Keymapper.TypeKeyBinding | src/keymapper.rs:74-96 | typable characters (with Shift for capitals) are bound to insert themselves |
| Keymapper.TypingDispatch | src/keymapper.rs:277 | typing a text key by key is the same as inserting it character by character |
| Keymapper.TypedInsertsText | src/keymapper.rs:280-286 | inserting a text character by character places it at the cursor and moves the cursor right by its length |
| Keymapper.TypingInsertsText | src/keymapper.rs:251-286 | in Insert mode, typing a text inserts it at the cursor |
| Keymapper.TabIsTyping | src/keymapper.rs:227-236 | Tab behaves as typing four blanks |
| Keymapper.TabInsertsFourBlanks | src/keymapper.rs:227-236 | in Insert mode, the Tab key and four blank keys give the same editor |
| Keymapper.EnterBreaksLine | src/keymapper.rs:242-250 | in Insert mode, Enter inserts '\n' at the cursor and adds a line; the cursor goes to column 0 of the next row, which starts just after the break |
| Keymapper.LineBrokenEffect | src/keymapper.rs:242-250 | the Enter closure's effect on rope and cursor, as `EnterBreaksLine` states |
| Keymapper.Editor.InsertCharToRope | src/keymapper.rs:280-286 | the in-place insertion has the effect of `InsertStep` |
| Keymapper.Editor.ClampColumnStep | src/keymapper.rs:130-133 | the in-place clamp has the effect of `ClampColumn` |
| Keymapper.Editor.MoveDown | src/keymapper.rs:109-135 | the 'j' closure, in place |
| Keymapper.Editor.MoveRight | src/keymapper.rs:169-178 | the 'l' closure, in place |
| Keymapper.Editor.MoveUp | src/keymapper.rs:137-163 | the 'k' closure, in place |
| Keymapper.Editor.Execute | src/keymapper.rs:206-220 | the Command-mode Enter closure, in place; it reports a write exactly for "w" |
| Keymapper.Editor.Backspace | src/keymapper.rs:258-276 | the Backspace closure, in place |
| Keymapper.Editor.Tabulate | src/keymapper.rs:227-236 | the Tab closure, four insertions in place |
| Keymapper.Editor.BreakLine | src/keymapper.rs:242-250 | the Insert-mode Enter closure, in place |
| Keymapper.Editor.Run | src/keymapper.rs:99-278 | running any closure of the table on the editor has the effect of `Apply`, and writes exactly when `Writes` says |
| Keymapper.GetMap | src/keymapper.rs:24-31 | `get_map(mode)` selects the map of that mode; `GetMapping` and `InsertMapping` state lookup and update through it |
| Keymapper.NewMapper | src/keymapper.rs:16-22 | `Mapper::new()`: three empty maps; `MapperAccess` states it |
| Keymapper.SetMap | src/keymapper.rs:33-40 | writing through `get_map_mut(mode)`; `MapperAccess` states it |
| Keymapper.MapperAccess | src/keymapper.rs:16-40 | `Mapper::new()` has an empty map for every mode; writing through `get_map_mut(mode)` replaces the map of that mode and leaves the other two maps as they were |
| Keymapper.DefaultBinding | src/keymapper.rs:99-278 | the reference key table, key by key and mode by mode, with the second binding of a key twice bound; `KeyBuilder` proves the built mapper equals it |
| Keymapper.Defined | src/keymapper.rs:109-276 | when a closure runs without a u16 overflow or an out-of-range rope index; `Dispatch` returns `None` exactly when it fails |
| Keymapper.Apply | src/keymapper.rs:99-278 | the effect of each closure on the editor state; the `...Effect` lemmas and `ModeTransitions`, `ExecuteStopsOnlyOnQuit` and `TabIsTyping` state it closure by closure |
| Keymapper.Writes | src/keymapper.rs:206-220 | the Command-mode Enter closure writes the rope exactly when the command is "w"; `ExecuteStopsOnlyOnQuit` states it |
| Keymapper.Dispatch | src/keymapper.rs:42-44 | a key is looked up in the table of the current mode: an unbound key changes nothing, a bound one runs its closure; `QuitSequence` and `TypingDispatch` state runs of keys |
| Keymapper.InsertStep | src/keymapper.rs:280-286 | insert_char_to_rope: the character goes in at the cursor's index and the column steps right; `InsertStepEffect` states it |
| Keymapper.DownStep | src/keymapper.rs:119-129 | the 'j' step before the clamp: scroll at the window's last row, else one row down, capped; `DownStepShape` states it |
| Keymapper.UpStep | src/keymapper.rs:137-163 | the 'k' step before the clamp: scroll back at row 0, else one row up; `UpStepShape` and `MoveUpEffect` state it |
| Keymapper.ClampColumn | src/keymapper.rs:130-133 | the column is pulled back to the new line's length less 2; `ClampColumnIs` and `ClampFacts` state it |
| Keymapper.RightMoved | src/keymapper.rs:169-178 | the 'l' closure: one column right, capped at the line's length less 2; `MoveRightEffect` states it |
| Keymapper.Backspaced | src/keymapper.rs:258-276 | the Backspace closure: nothing at (0, 0), else the character before the cursor goes; `BackspaceWithinLine` and `BackspaceJoinsLines` state it |
| Keymapper.LineBroken | src/keymapper.rs:242-250 | the Insert-mode Enter closure: a '\n' at the cursor and the cursor at column 0 of the next row; `EnterBreaksLine` states it |
| Modes.ToStr | src/editor.rs:32-38 | every mode has a non-empty name, and "--insert--" is the name of Insert mode only |
| Modes.ToStrInjective | src/editor.rs:32-38 | different modes have different names |
| Positions.Retreat | src/position.rs:11-15 | moving toward 0 subtracts the jump only above the clamp, and never goes up; a unit step stops at the clamp |
| Positions.Advance | src/position.rs:17-21 | moving away from 0 adds the jump only below the clamp, and never goes down; a unit step stops at the clamp |
| Positions.UnitStepsStopAtClamp | src/position.rs:11-33 | n unit steps end at the clamp or n away, whichever comes first |
| Positions.Position.constructor | src/position.rs:7-9 | `Position::new(x, y)` holds x and y |
| Positions.Position.MoveUp | src/position.rs:11-15 | `move_up` retreats y and leaves x |
| Positions.Position.MoveDown | src/position.rs:17-21 | `move_down` advances y and leaves x |
| Positions.Position.MoveLeft | src/position.rs:23-27 | `move_left` retreats x and leaves y |
| Positions.Position.MoveRight | src/position.rs:29-33 | `move_right` advances x and leaves y |
| TextBuffers.Edited | src/textbuffer.rs:71-79 | the text `edit` leaves: the range replaced by the new text; `EditedShape` and `EditUndo` state it |
| TextBuffers.EditedShape | src/textbuffer.rs:71-79 | `edit(start, end, s)` replaces the range by s and keeps the text around it |
| TextBuffers.EditUndo | src/textbuffer.rs:71-79 | editing back with the removed text undoes an edit; an empty edit of an empty range changes nothing |
| TextBuffers.TextBuffer.FromPath | src/textbuffer.rs:19-40 | `from_path`: the file's contents or an empty rope, the path kept, not dirty |
| TextBuffers.TextBuffer.GetLine | src/textbuffer.rs:42-44 | `get_line(idx)` is a slice of the text starting at line idx's start |
| TextBuffers.TextBuffer.LenLines | src/textbuffer.rs:62-64 | `len_lines()` is one more than the number of line breaks in the text |
| TextBuffers.TextBuffer.Remove | src/textbuffer.rs:66-69 | `remove(idx..)` cuts the text at idx and marks it dirty |
| TextBuffers.TextBuffer.Edit | src/textbuffer.rs:71-79 | `edit` replaces the range as `Edited` says and marks the buffer dirty |
| TextBuffers.TextBuffer.InsertChar | src/textbuffer.rs:81-85 | `insert_char(x, y, c)` inserts c at column x of line y and marks the buffer dirty |
| TextBuffers.TextBuffer.NewLine | src/textbuffer.rs:87-91 | `new_line(x, y)` inserts a '\n' at column x of line y, which adds a line |
| Editors.Commands | src/editor.rs:11-22 | there are no more commands than characters; `CommandsOfFirstWord` states that a Quit is parsed exactly when a 'q' comes before the first blank, and a Save exactly when a 'w' does |
| Editors.FirstWord | src/editor.rs:87-89 | `split(' ')`'s first part: a prefix with no blank that ends at the first blank or at the end |
| Editors.NameArg | src/editor.rs:87-90 | the name argument is present exactly when there is a blank; it is the blank-free word right after the first blank |
| Editors.CommandsAppend | src/editor.rs:11-22 | the parse of a blank-free prefix and of the rest concatenate |
| Editors.CommandsOfFirstWord | src/editor.rs:86-93 | both branches of run_command parse the same commands: a Quit exactly when the first word has a 'q', a Save exactly when it has a 'w', one command per 'q' or 'w' |
| Editors.CommandTypeNew | src/editor.rs:11-22 | the loop of `CommandType::new` gives the commands of the command line |
| Editors.SaveName | src/editor.rs:68-72 | `save` writes to the buffer's path, else the name given, else "new_text.txt" |
| Editors.Saves | src/editor.rs:94-99 | the writes of a run of commands: one write per Save, in order; `SavesShape` and `SavesSnoc` state it |
| Editors.SavesShape | src/editor.rs:94-99 | every write is of the buffer's text to the chosen file; there is at most one per command, and none exactly when there is no Save |
| Editors.SavesSnoc | src/editor.rs:94-99 | one more command adds a write exactly when it is a Save |
| Editors.ParseCommand | src/editor.rs:82-93 | run_command's parse gives the commands and the name argument |
| Editors.Editor.constructor | src/editor.rs:58-65 | `Editor::new`: the given mode, an empty command, not quitting, and the buffer from the path |
| Editors.Editor.SaveTo | src/editor.rs:68-79 | `save` records one write of the text to the chosen file, and nothing else changes |
| Editors.Editor.SetQuit | src/editor.rs:102-104 | `quit` sets the quit flag, and nothing else changes |
| Editors.Editor.RunCommand | src/editor.rs:81-100 | run_command quits exactly when the command has a 'q' before its first blank, records a write per 'w' there, and changes nothing else |
| Editors.Editor.Perform | src/editor.rs:94-99 | carrying out a list of commands quits if one is Quit, and records a write per Save, in order |
| Editors.Editor.PerformOne | src/editor.rs:95-98 | one command: Quit sets the flag, Save records a write |
| Editors.Editor.CommandMode | src/editor.rs:108-111 | `command_mode` switches to Command mode and appends ':' to the command |
| Editors.Editor.InsertMode | src/editor.rs:113-115 | `insert_mode` switches to Insert mode, and nothing else changes |
| Editors.Editor.NormalMode | src/editor.rs:117-119 | `normal_mode` switches to Normal mode, and nothing else changes |
| Editors.Editor.IsNormal | src/editor.rs:121-126 | `is_normal` holds in Normal mode only; `ExactlyOneMode` states it |
| Editors.Editor.IsCommand | src/editor.rs:128-133 | `is_command` holds in Command mode only; `ExactlyOneMode` states it |
| Editors.Editor.IsInsert | src/editor.rs:135-140 | `is_insert` holds in Insert mode only; `ExactlyOneMode` states it |
| Editors.ExactlyOneMode | src/editor.rs:121-140 | exactly one of is_normal, is_command and is_insert holds, each for its own mode |
| Input.NormalResponse | src/main.rs:51-71 | the Normal-mode handler's response to a key; `NormalKeys` states it key by key |
| Input.CommandResponse | src/main.rs:22-49 | the Command-mode handler's response to a key; `CommandKeys` states it key by key |
| Input.InsertResponse | src/main.rs:73-113 | the Insert-mode handler's response to a key; `InsertKeys` states it key by key |
| Input.Respond | src/main.rs:115-126 | `input_events` picks the handler of the current mode |
| Input.Perform | src/main.rs:22-113 | what a response does to the editor: mode switches, command edits, running the command (quit on a 'q', a write per 'w') and screen calls; `OnlyExecuteQuits` states when it quits |
| Input.Step | src/main.rs:115-126 | one key: the response of the current mode's handler, performed |
| Input.Run | src/main.rs:145-153 | the loop's state after a run of keys, stopping after the first that quits; `RunStopsOnQuit` states it |
| Input.Handled | src/main.rs:145-153 | the loop handles no more keys than it is given, at least one when there is one, and stops short of the end only because a key set the quit flag |
| Input.NormalKeys | src/main.rs:51-71 | in Normal mode Ctrl+C does nothing; ':' and 'i' switch mode; arrows and hjkl move the cursor; no other key does anything |
| Input.CommandKeys | src/main.rs:22-49 | in Command mode: Esc returns to Normal and keeps the command; Ctrl+H pops a character; Enter runs the command, clears it and returns to Normal; any other character is appended; other keys do nothing |
| Input.InsertKeys | src/main.rs:73-113 | in Insert mode: Esc or Ctrl+C returns to Normal; Backspace or Ctrl+H deletes; Enter breaks the line; arrows move; other characters are inserted |
| Input.OnlyExecuteQuits | src/main.rs:22-49 | the quit flag stays set once set, and a key sets it exactly when it is Enter in Command mode with a 'q' in the command's first word |
| Input.RunStopsOnQuit | src/main.rs:145-153 | the loop handles keys one by one up to and including the first that sets the quit flag, and none after it |
| Input.RunOfThree | src/main.rs:145-153 | three keys of which only the third quits are all handled |
| Input.QuitKeystrokes | src/main.rs:22-71 | ':', 'q', Enter from Normal mode quits after three keys |
| Input.EscapeKeepsCommand | src/main.rs:22-49 | Esc keeps the command line, so ':' and Enter afterwards run the old command, with ':' appended |
| Input.Screen.constructor | src/main.rs:140-141 | the screen wraps the editor and has made no calls yet |
| Input.Screen.Record | src/main.rs:64-67 | a screen method call is recorded in order |
| Input.Screen.Do | src/main.rs:22-113 | a handler's response changes the editor and the screen as `Perform` says |
| Input.Screen.InputNormalMode | src/main.rs:51-71 | `input_normal_mode` has the effect of the Normal response to the key |
| Input.Screen.InputCommandMode | src/main.rs:22-49 | `input_command_mode` has the effect of the Command response to the key |
| Input.Screen.InputInsertMode | src/main.rs:73-113 | `input_insert_mode` has the effect of the Insert response to the key |
| Input.Screen.InputEvents | src/main.rs:115-126 | a key goes to the handler of the current mode |
| Input.Screen.MainLoop | src/main.rs:145-153 | the loop's final state is `Run` of the keys, and it reports how many keys it handled |
| Snake.Add | testdisplay.py:140-141 | `__iadd__` adds componentwise; `AddNeg` states that a step and its opposite cancel |
| Snake.AddNeg | testdisplay.py:140-141 | adding a step and then its opposite comes back to the start; a step changes the position unless it is zero |
| Snake.Turned | testdisplay.py:179-187 | each arrow key sets its direction, any other key keeps the direction, and a unit direction stays a unit direction |
| Snake.Wrapped | testdisplay.py:206-213 | a head off the field's left or right edge reappears on the other side, and one off the top or bottom edge (with x in the field) reappears at the bottom or top; at most one coordinate changes, and a head in the field stays |
| Snake.WrapAfterStep | testdisplay.py:205-217 | after one unit step from inside the field, wrapping brings the head back into the field |
| Snake.Trimmed | testdisplay.py:215-216 | the body keeps its front and loses at most its last segment; it loses one exactly when it is longer than the length, and is kept whole otherwise; a body at most one longer than the length is cut to the length |
| Snake.Food.constructor | testdisplay.py:154-164 | food is a '0' at the given place, in the given colour |
| Snake.Food.Spawn | testdisplay.py:158-164 | respawned food is a '0' at the new place, in the new colour |
| Snake.Snake.constructor | testdisplay.py:171-177 | the snake starts as a red (`fg(255, 0, 0)`) '@' head at the start, moving right, with length 0, no body and no colours |
| Snake.Snake.ChangeDirection | testdisplay.py:179-187 | the direction becomes `Turned`, and nothing else changes |
| Snake.Snake.EatFood | testdisplay.py:189-196 | food is eaten exactly when it is under the head: its colour goes in front of the colours, the length grows by one and the food respawns; otherwise nothing changes |
| Snake.Bitten | testdisplay.py:198-203 | some body segment is at the given place |
| Snake.Snake.EatSelf | testdisplay.py:198-203 | the snake has bitten itself exactly when a body segment is where the head is |
| Snake.Snake.Update | testdisplay.py:205-217 | the head is wrapped, a segment is laid where it is, the body is trimmed to the length, and the head moves one step |
| Snake.Game.constructor | testdisplay.py:226-230 | a game starts with a fresh red snake at the start, moving right, with no body, and a '0' of food at the given place in the given colour |
| Snake.Game.Update | testdisplay.py:232-237 | a tick moves the head one step from its wrapped place, keeps the direction, lays a segment (in the food's colour) at the wrapped place and trims the body to the old length; if the food is under the new head the length grows by one, its colour is put in front and the food respawns, else length, colours and food are unchanged; the game is over exactly when the head is on the body |

## Left out

- File I/O is not modelled: reading, writing and creating files. `save`
  records the write as a `SaveEvent`. The Command-mode "w" closure is
  reported through `Writes`. `from_path` takes the file's contents as a
  parameter. The error panics of opening, creating and writing files are
  not modelled.
- The terminal is not modelled. This covers crossterm's raw mode, the
  alternate screen, `poll` with its 10 ms timeout, `read`, and resize
  events.
- From `src/render.rs`, these are not modelled: `screen_size`,
  `render_status_bar`, `render_error_message`, `render_output`, `render`
  and the queued terminal commands. `render_text` is covered only through
  `format_text`, which gets the joined text of the visible lines as its
  input.
- The `Screen` type of `src/main.rs` is not part of this model: its
  `move_*`, `backspace`, `line_break`, `insert_char`, `update`, `start`,
  `end` and `resize`. Calls to its methods are recorded as `ScreenCall`
  values, in order.
- `crossdisplay/src/tui.rs` is not part of this model.
- The scroll window's `bottom()` for the keymapper's revision of the
  editor is not part of this model. It is taken as `y + max_h`, as
  `bottom()` in `src/render.rs`.
- A `u16` overflow or underflow panics in the source. Here it becomes a
  precondition: `Defined`, `InsertOk` and `BackspaceOk` for the
  closures, and the `requires` of the `Position` moves. A closure that
  would panic dispatches to `None`.
- `as u16` on a `usize` is the truncation `AsU16`. A `usize` is an
  unbounded natural number.
- `Screen.ReplaceFrom`, `Screen.InsertAt`: assume w > 0. The source
  divides by w, so w = 0 panics.
- Panics of the source become preconditions, and the panicking
  inputs are not modelled:
  - `Screen.ReplaceFrom` requires `idx <= dst.Length`. For a larger
    idx, `dst_end - idx` underflows at src/screen.rs:15.
  - `Screen.InsertAt` requires `idx + w <= dst.Length`. Otherwise the
    slice at src/screen.rs:27 is out of range.
  - `TextBuffers.TextBuffer.Remove`, `Edit`, `InsertChar` and `NewLine`
    require their indices to be in the rope. ropey panics on an
    out-of-range index or line.
  - `Keymapper.InsertOk` and `Keymapper.BackspaceOk` require the
    cursor's line to exist and its index to be in the rope, for the same
    reason.
- `Render.FormatText`, `Render.FormatLines`: assume a height of at least
  1 when the text has a line. `height - 1` underflows otherwise.
- The text is taken as ASCII. A `char` counts as one byte for `len()`
  and for slicing. There is no Unicode handling.
- `cfg!(windows)` is a parameter, `windows`, of the key table.
- The snake toy's terminal size is fixed at 80 by 24 columns and rows.
  `randint` results and the food's random colour are parameters.
  Colours are their escape strings.
  `draw`, `getchar`, `clear`, `sleep`, the tick rate, `exit` and
  `mainloop`'s loop are not modelled.
- `Snake.Game.Update`: the ticking delay it lowers (`tick_rate`) is not
  modelled.
- `Input.Handled`: it states the count of handled keys only. What the
  handled keys do is in `Input.RunStopsOnQuit`.
- `TextBuffer.bytes`, `chars`, `lines` and `chunks` are not modelled.
  They only iterate over the rope's text, which `text` holds.
