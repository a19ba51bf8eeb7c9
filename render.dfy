/** The text layout of src/render.rs: the visible text becomes exactly
    `height` rows of `width` cells, each ended by "\r\n"; the command bar is
    padded to the screen width; the cursor goes either to the text cursor or
    just after the command being typed. Only the strings and coordinates are
    modelled, not the terminal output. */
module Render {
  import opened Support
  import opened Strings
  import opened Modes

  /** `ScreenVector { t, b, max_w, max_h }`: the visible window. */
  datatype ScreenVector = ScreenVector(t: nat, b: nat, maxW: nat, maxH: nat)
  {
    function Origin(): (nat, nat) { (t, b) }
    function Right(): nat { t + maxW }
    function Left(): nat { t }
    function Top(): nat { b }
    function Bottom(): nat { b + maxH }
  }

  /** The window spans `max_w` columns from its left edge and `max_h` rows
      from its top edge, and its origin is its top-left corner. */
  lemma ScreenVectorExtent(v: ScreenVector)
    ensures v.Right() - v.Left() == v.maxW && v.Bottom() - v.Top() == v.maxH
    ensures v.Origin() == (v.Left(), v.Top())
    ensures v.Left() <= v.Right() && v.Top() <= v.Bottom()
  {
  }

  /** One line of text as a row: the first `width` characters with each
      tab widened to four blanks, blanks up to `width`, then "\r\n". */
  function FormatRow(line: string, width: nat): (r: string)
    ensures |r| == width + 3 * Occurrences(line[..Min(|line|, width)], '\t') + 2
  {
    ReplaceTabs(line[..Min(|line|, width)]) + Spaces(USub(width, |line|)) + "\r\n"
  }

  /** A row ends with "\r\n" and holds no other line break; a tab-free
      line becomes exactly `width` cells: its first `width` characters, then
      blanks. */
  lemma FormatRowShape(line: string, width: nat)
    requires '\n' !in line
    ensures var r := FormatRow(line, width);
      && |r| >= 2 && r[|r| - 2..] == "\r\n"
      && Occurrences(r, '\n') == 1
      && ('\t' !in line ==>
            |r| == width + 2
            && r[..Min(|line|, width)] == line[..Min(|line|, width)]
            && (forall i :: |line| <= i < width ==> r[i] == ' '))
  {
    var kept := line[..Min(|line|, width)];
    var row := ReplaceTabs(kept) + Spaces(USub(width, |line|));
    var r := FormatRow(line, width);
    assert r == row + "\r\n";
    assert '\n' !in kept;
    OccurrencesZero(Spaces(USub(width, |line|)), '\n');
    OccurrencesZero(kept, '\n');
    OccurrencesAppend(ReplaceTabs(kept), Spaces(USub(width, |line|)), '\n');
    OccurrencesAppend(row, "\r\n", '\n');
    assert Occurrences("\r\n", '\n') == 1;
    assert r[|r| - 2..] == "\r\n";
    if '\t' !in line {
      assert '\t' !in kept;
      assert r[..|kept|] == kept;
    }
  }

  /** A row of `width` blanks, then "\r\n". */
  function Filler(width: nat): (r: string)
    ensures |r| == width + 2 && r[width..] == "\r\n"
    ensures forall i :: 0 <= i < width ==> r[i] == ' '
    ensures Occurrences(r, '\n') == 1
  {
    OccurrencesAppend(Spaces(width), "\r\n", '\n');
    OccurrencesZero(Spaces(width), '\n');
    assert Occurrences("\r\n", '\n') == 1;
    Spaces(width) + "\r\n"
  }

  /** Each line formatted as a row. */
  function FormattedRows(lines: seq<string>, width: nat): (r: seq<string>)
    ensures |r| == |lines|
    ensures forall i :: 0 <= i < |lines| ==> r[i] == FormatRow(lines[i], width)
  {
    seq(|lines|, i requires 0 <= i < |lines| => FormatRow(lines[i], width))
  }

  /** `count` filler rows. */
  function Fillers(count: nat, width: nat): (r: seq<string>)
    ensures |r| == count
    ensures forall i :: 0 <= i < count ==> r[i] == Filler(width)
  {
    seq(count, _ => Filler(width))
  }

  /** The rows `format_text` produces: the first `height` lines, formatted,
      and then filler rows until there are `height` rows. */
  function TextRows(lines: seq<string>, width: nat, height: nat): (r: seq<string>)
  {
    var n := Min(|lines|, height);
    FormattedRows(lines[..n], width) + Fillers(height - n, width)
  }

  /** The screen text holds exactly `height` rows: row i is line i
      formatted while there are lines, and a filler row after that; every
      row ends with "\r\n" and the text holds one '\n' per row. */
  lemma TextRowsShape(lines: seq<string>, width: nat, height: nat)
    requires forall i :: 0 <= i < |lines| ==> '\n' !in lines[i]
    ensures |TextRows(lines, width, height)| == height
    ensures forall i :: 0 <= i < height ==>
      TextRows(lines, width, height)[i] ==
        if i < |lines| then FormatRow(lines[i], width) else Filler(width)
    ensures Occurrences(Concat(TextRows(lines, width, height)), '\n') == height
  {
    var rows := TextRows(lines, width, height);
    var n := Min(|lines|, height);
    forall i | 0 <= i < height
      ensures rows[i] == if i < |lines| then FormatRow(lines[i], width) else Filler(width)
    {
      if i < n {
        assert rows[i] == FormattedRows(lines[..n], width)[i];
      } else {
        assert rows[i] == Fillers(height - n, width)[i - n];
      }
    }
    forall i | 0 <= i < |rows| ensures Occurrences(rows[i], '\n') == 1 {
      if i < |lines| && i < height {
        FormatRowShape(lines[i], width);
      }
    }
    ConcatNewlines(rows);
  }

  /** Rows that each hold one line break give a text with as many line
      breaks as rows. */
  lemma {:induction false} ConcatNewlines(rows: seq<string>)
    requires forall i :: 0 <= i < |rows| ==> Occurrences(rows[i], '\n') == 1
    ensures Occurrences(Concat(rows), '\n') == |rows|
  {
    if rows != [] {
      ConcatNewlines(rows[1..]);
      OccurrencesAppend(rows[0], Concat(rows[1..]), '\n');
    }
  }

  /** `count_char(chr)`: how many times `chr` occurs in `s`. */
  method CountChar(s: string, chr: char) returns (counter: nat)
    ensures counter == Occurrences(s, chr)
  {
    counter := 0;
    for i := 0 to |s|
      invariant counter == Occurrences(s[..i], chr)
    {
      assert s[..i + 1] == s[..i] + [s[i]];
      OccurrencesAppend(s[..i], [s[i]], chr);
      if s[i] == chr {
        counter := counter + 1;
      }
    }
    assert s[..|s|] == s;
  }

  /** `format_text(text, width, height)`: lay the text out as the rows of
      the screen. The loop stops after row `height - 1`, which underflows
      when `height` is 0 and the text has a line. */
  method FormatText(text: string, width: nat, height: nat) returns (formatted: string)
    requires height >= 1 || Lines(text) == []
    ensures formatted == Concat(TextRows(Lines(text), width, height))
  {
    var lines := Lines(text);
    var acc := FormatLines(lines, width, height);
    ghost var rows := FormattedRows(lines[..Min(|lines|, height)], width);
    assert Occurrences(acc, '\n') == Min(|lines|, height) by {
      FormattedRowsNewlines(lines[..Min(|lines|, height)], width);
    }
    var count := CountChar(acc, '\n');
    var fill := USub(height, count);
    assert rows + Fillers(0, width) == rows;
    for k := 0 to fill
      invariant acc == Concat(rows + Fillers(k, width))
    {
      acc := acc + Spaces(width);
      acc := acc + "\r\n";
      FillersSnoc(rows, k, width);
    }
    formatted := acc;
  }

  /** The first loop of `format_text`: the rows of the first `height`
      lines, one after the other. */
  method FormatLines(lines: seq<string>, width: nat, height: nat) returns (acc: string)
    requires height >= 1 || lines == []
    ensures acc == Concat(FormattedRows(lines[..Min(|lines|, height)], width))
  {
    acc := "";
    var y := 0;
    while y < |lines|
      invariant y <= |lines| && y <= height
      invariant y < |lines| ==> y < height
      invariant acc == Concat(FormattedRows(lines[..y], width))
      decreases |lines| - y
    {
      var line := lines[y];
      var spaces := USub(width, |line|);
      var blanks := Spaces(spaces);
      ghost var before := acc;
      var kept := ReplaceTabs(line[..Min(|line|, width)]);
      acc := acc + kept;
      acc := acc + blanks;
      acc := acc + "\r\n";
      assert acc == before + (kept + blanks + "\r\n");
      FormattedRowsSnoc(lines, y, width);
      if y == height - 1 {
        y := y + 1;
        break;
      }
      y := y + 1;
    }
    assert y == Min(|lines|, height);
  }

  /** One more line formatted appends its row. */
  lemma FormattedRowsSnoc(lines: seq<string>, y: nat, width: nat)
    requires y < |lines|
    ensures Concat(FormattedRows(lines[..y + 1], width))
      == Concat(FormattedRows(lines[..y], width)) + FormatRow(lines[y], width)
  {
    assert FormattedRows(lines[..y + 1], width) == FormattedRows(lines[..y], width) + [FormatRow(lines[y], width)];
    ConcatAppend(FormattedRows(lines[..y], width), FormatRow(lines[y], width));
  }

  /** One more filler row appends a blank row. */
  lemma FillersSnoc(rows: seq<string>, k: nat, width: nat)
    ensures Concat(rows + Fillers(k + 1, width)) == Concat(rows + Fillers(k, width)) + Spaces(width) + "\r\n"
  {
    assert rows + Fillers(k + 1, width) == (rows + Fillers(k, width)) + [Filler(width)];
    ConcatAppend(rows + Fillers(k, width), Filler(width));
  }

  /** The formatted lines hold one line break per line. */
  lemma FormattedRowsNewlines(lines: seq<string>, width: nat)
    requires forall i :: 0 <= i < |lines| ==> '\n' !in lines[i]
    ensures Occurrences(Concat(FormattedRows(lines, width)), '\n') == |lines|
  {
    var rows := FormattedRows(lines, width);
    forall i | 0 <= i < |rows| ensures Occurrences(rows[i], '\n') == 1 {
      FormatRowShape(lines[i], width);
    }
    ConcatNewlines(rows);
  }

  /** `format_command_bar(line, length)`: pad the bar with blanks up to
      `length`; a longer bar is kept whole. */
  method FormatCommandBar(line: string, length: nat) returns (r: string)
    ensures r == PadRight(line, length)
  {
    var spaces := USub(length, |line|);
    var blanks := Spaces(spaces);
    r := line + blanks;
  }

  /** The command bar's text in `render_command_bar`: ":" and the command in
      Command mode, the bare command otherwise, padded to the width. */
  function CommandBarText(mode: Mode, command: string, maxW: nat): (r: string)
    ensures mode == Command ==> |r| >= 1 + |command| && r[0] == ':' && r[1..1 + |command|] == command
    ensures mode != Command ==> |r| >= |command| && r[..|command|] == command
    ensures |r| == Max(maxW, (if mode == Command then 1 else 0) + |command|)
    ensures forall i :: (if mode == Command then 1 else 0) + |command| <= i < |r| ==> r[i] == ' '
  {
    var dot := if mode == Command then ":" else "";
    var bar := PadRight(dot + command, maxW);
    assert bar[..|dot + command|] == dot + command;
    assert mode == Command ==> bar[1..1 + |command|] == (dot + command)[1..];
    bar
  }

  /** The row the command bar is drawn on: `max_h + 1`, as a u16. */
  function CommandBarRow(maxH: nat): U16
  {
    AsU16(maxH + 1)
  }

  /** Where `render_cursor` puts the terminal cursor: in Command mode just
      after the command (column `len + 1`) on the row below the text window
      (`bottom() + 1`), otherwise at the text cursor. Both coordinates are
      cast to u16. */
  function CursorTarget(mode: Mode, commandLen: nat, cursorX: U16, cursorY: U16, screen: ScreenVector): (r: (U16, U16))
    ensures mode != Command ==> r == (cursorX, cursorY)
    ensures mode == Command && commandLen + 1 <= U16Max && screen.Bottom() + 1 <= U16Max ==>
      r == (commandLen + 1, screen.Bottom() + 1)
  {
    var x := if mode == Command then AsU16(commandLen + 1) else cursorX;
    var y := if mode == Command then AsU16(1 + screen.Bottom()) else cursorY;
    (x, y)
  }

  /** In Command mode, for a window at the top of the terminal, the cursor
      lands on the command bar's row, right after the ":" and the command
      text the bar shows. */
  lemma CursorAfterCommand(command: string, cursorX: U16, cursorY: U16, screen: ScreenVector)
    requires screen.b == 0 && |command| + 1 <= U16Max && screen.maxH + 1 <= U16Max
    ensures var (x, y) := CursorTarget(Command, |command|, cursorX, cursorY, screen);
      && y == CommandBarRow(screen.maxH)
      && x <= |CommandBarText(Command, command, screen.maxW)|
      && CommandBarText(Command, command, screen.maxW)[..x] == ":" + command
  {
    var bar := CommandBarText(Command, command, screen.maxW);
    assert bar[..1 + |command|] == [bar[0]] + bar[1..1 + |command|];
  }

  /** For a window that starts below the top row, the cursor's Command-mode
      row (`1 + b + max_h`) and the bar's row (`max_h + 1`) differ: the
      cursor is placed `b` rows below the bar. */
  lemma CursorBelowCommandBar(commandLen: nat, cursorX: U16, cursorY: U16, screen: ScreenVector)
    requires screen.b > 0 && commandLen + 1 <= U16Max && screen.Bottom() + 1 <= U16Max
    ensures CursorTarget(Command, commandLen, cursorX, cursorY, screen).1 == CommandBarRow(screen.maxH) + screen.b
    ensures CursorTarget(Command, commandLen, cursorX, cursorY, screen).1 != CommandBarRow(screen.maxH)
  {
  }
}
