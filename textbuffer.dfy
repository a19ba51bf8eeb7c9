/** The text buffer of src/textbuffer.rs: a rope, the path of its file (if
    any) and a flag telling whether it was changed since it was read. */
module TextBuffers {
  import opened Support
  import opened Rope
  import Strings

  /** The text `edit(start, end, s)` leaves: the range `start..end`
      replaced by `s`. */
  function Edited(t: string, start: nat, end: nat, s: string): string
    requires start <= end <= |t|
  {
    t[..start] + s + t[end..]
  }

  /** An edit only touches its range: the text before `start` and after
      `end` is kept, with `s` in between. */
  lemma EditedShape(t: string, start: nat, end: nat, s: string)
    requires start <= end <= |t|
    ensures |Edited(t, start, end, s)| == |t| - (end - start) + |s|
    ensures Edited(t, start, end, s)[..start] == t[..start]
    ensures Edited(t, start, end, s)[start..start + |s|] == s
    ensures Edited(t, start, end, s)[start + |s|..] == t[end..]
  {
    var r := Edited(t, start, end, s);
    assert r[start + |s|..] == t[end..];
  }

  /** An edit is undone by the edit that puts the old range back over the
      new text; an empty edit changes no text. */
  lemma EditUndo(t: string, start: nat, end: nat, s: string)
    requires start <= end <= |t|
    ensures Edited(Edited(t, start, end, s), start, start + |s|, t[start..end]) == t
    ensures Edited(t, start, start, "") == t
  {
    EditedShape(t, start, end, s);
    var r := Edited(t, start, end, s);
    assert t == t[..start] + t[start..end] + t[end..];
    assert Edited(t, start, start, "") == t[..start] + t[start..];
    assert t == t[..start] + t[start..];
  }

  class TextBuffer {
    var text: string
    var path: Option<string>
    var dirty: bool

    /** `from_path(path)`. For `None` the text is empty; the contents of
        a named file are read from disk, which this model leaves to its
        caller: `contents` stands for them. */
    constructor FromPath(path: Option<string>, contents: string)
      ensures this.text == (if path.None? then [] else contents)
      ensures this.path == path && !dirty
    {
      text := if path.None? then [] else contents;
      this.path := path;
      dirty := false;
    }

    /** `get_line(idx)`. */
    function GetLine(idx: nat): (r: string)
      reads this
      requires idx < Rope.LenLines(text)
      ensures LineToChar(text, idx) + |r| <= |text|
      ensures r == text[LineToChar(text, idx)..LineToChar(text, idx) + |r|]
    {
      Line(text, idx)
    }

    /** `len_lines()`. */
    function LenLines(): (n: nat)
      reads this
      ensures n == Strings.Occurrences(text, '\n') + 1
    {
      Rope.LenLines(text)
    }

    /** `remove(idx..)`: keep the first `idx` characters. */
    method Remove(idx: nat)
      requires idx <= |text|
      modifies this
      ensures text == old(text)[..idx]
      ensures dirty && path == old(path)
    {
      text := Rope.Remove(text, idx, |text|);
      dirty := true;
    }

    /** `edit(start, end, s)`: remove the range when it is not empty,
        insert `s` when it is not empty, and mark the buffer changed in any
        case. */
    method Edit(start: nat, end: nat, s: string)
      requires start <= end <= |text|
      modifies this
      ensures text == Edited(old(text), start, end, s)
      ensures dirty && path == old(path)
    {
      if start != end {
        text := Rope.Remove(text, start, end);
      }
      if |s| > 0 {
        text := InsertText(text, start, s);
      }
      dirty := true;
    }

    /** `insert_char(x, y, c)`: insert `c` at column `x` of line `y`. */
    method InsertChar(x: U16, y: U16, c: char)
      requires y <= Rope.LenLines(text) && LineToChar(text, y) + x <= |text|
      modifies this
      ensures text == Insert(old(text), LineToChar(old(text), y) + x, c)
      ensures dirty && path == old(path)
    {
      var lineIndex := LineToChar(text, y);
      text := Insert(text, lineIndex + x, c);
      dirty := true;
    }

    /** `new_line(x, y)`: insert a line break at column `x` of line `y`;
        the text gains a line. */
    method NewLine(x: U16, y: U16)
      requires y <= Rope.LenLines(text) && LineToChar(text, y) + x <= |text|
      modifies this
      ensures text == Insert(old(text), LineToChar(old(text), y) + x, '\n')
      ensures Rope.LenLines(text) == Rope.LenLines(old(text)) + 1
      ensures dirty && path == old(path)
    {
      var lineIndex := LineToChar(text, y);
      InsertLenLines(text, lineIndex + x, '\n');
      text := Insert(text, lineIndex + x, '\n');
      dirty := true;
    }
  }
}
