/** The text storage the editor uses (a `ropey::Rope`), modelled as the
    sequence of its characters with '\n' as the only line break. Line `y`
    starts just after the y-th '\n'; a text with n line breaks has n + 1
    lines, the last of which may be empty. */
module Rope {
  import opened Strings

  /** `len_lines()`: one more than the number of line breaks. */
  function LenLines(t: string): (n: nat)
    ensures n >= 1
  {
    Occurrences(t, '\n') + 1
  }

  /** `line_to_char(y)`: the index of the first character of line `y`;
      `y == len_lines()` is allowed and gives the length of the text. */
  function LineToChar(t: string, y: nat): (r: nat)
    requires y <= LenLines(t)
    ensures r <= |t|
    ensures y == LenLines(t) ==> r == |t|
  {
    if y == 0 then 0
    else if t == [] then 0
    else 1 + LineToChar(t[1..], if t[0] == '\n' then y - 1 else y)
  }

  /** Line `y` starts after exactly `y` line breaks, and every line but
      the first starts right after a '\n'. */
  lemma {:induction false} LineStart(t: string, y: nat)
    requires y < LenLines(t)
    ensures Occurrences(t[..LineToChar(t, y)], '\n') == y
    ensures 0 < y ==> 0 < LineToChar(t, y) && t[LineToChar(t, y) - 1] == '\n'
  {
    if y > 0 && t != [] {
      var y' := if t[0] == '\n' then y - 1 else y;
      if y' < LenLines(t[1..]) {
        LineStart(t[1..], y');
      }
      var rest := LineToChar(t[1..], y');
      assert t[..1 + rest] == [t[0]] + t[1..][..rest];
    }
  }

  /** `char_to_line(i)`: the line that holds character `i` (the last line
      for `i == len_chars()`). */
  function CharToLine(t: string, i: nat): (y: nat)
    requires i <= |t|
    ensures y < LenLines(t)
  {
    assert t == t[..i] + t[i..];
    OccurrencesAppend(t[..i], t[i..], '\n');
    Occurrences(t[..i], '\n')
  }

  /** A line starts right after a '\n' and nowhere else: the index after
      the y-th line break is `line_to_char(y)`. */
  lemma {:induction false} LineStartUnique(t: string, k: nat, y: nat)
    requires 0 < k <= |t| && t[k - 1] == '\n'
    requires Occurrences(t[..k], '\n') == y
    ensures y < LenLines(t)
    ensures LineToChar(t, y) == k
  {
    assert t == t[..k] + t[k..];
    OccurrencesAppend(t[..k], t[k..], '\n');
    assert t[..k] == [t[0]] + t[1..][..k - 1];
    if k == 1 {
      assert t[0] == '\n';
      assert t[1..][..0] == [];
    } else {
      var y' := if t[0] == '\n' then y - 1 else y;
      LineStartUnique(t[1..], k - 1, y');
    }
  }

  /** The two coordinate maps are inverse on line starts, and every
      character lies between the start of its line and the start of the
      next one. */
  lemma LineCharRoundTrip(t: string, y: nat, i: nat)
    requires y < LenLines(t) && i <= |t|
    ensures CharToLine(t, LineToChar(t, y)) == y
    ensures LineToChar(t, CharToLine(t, i)) <= i
    ensures CharToLine(t, i) + 1 < LenLines(t) ==> i < LineToChar(t, CharToLine(t, i) + 1)
  {
    assert CharToLine(t, LineToChar(t, y)) == y by {
      LineStart(t, y);
    }
    var l := CharToLine(t, i);
    if LineToChar(t, l) > i {
      // the prefix up to i already holds l line breaks, so line l starts at or before i
      LineBefore(t, i, l);
    }
    if l + 1 < LenLines(t) {
      var e := LineToChar(t, l + 1);
      if e <= i {
        // then the prefix up to i would hold at least l + 1 line breaks
        LineStart(t, l + 1);
        assert t[..i] == t[..e] + t[e..i];
        OccurrencesAppend(t[..e], t[e..i], '\n');
      }
    }
  }

  /** If the first `i` characters hold `l >= 1` line breaks, line `l` starts
      no later than `i`. */
  lemma {:induction false} LineBefore(t: string, i: nat, l: nat)
    requires i <= |t| && l == Occurrences(t[..i], '\n')
    ensures l < LenLines(t) && LineToChar(t, l) <= i
  {
    assert t == t[..i] + t[i..];
    OccurrencesAppend(t[..i], t[i..], '\n');
    if l > 0 {
      assert t[..i] == [t[0]] + t[1..][..i - 1];
      LineBefore(t[1..], i - 1, if t[0] == '\n' then l - 1 else l);
    }
  }

  /** `line(y)`: the characters of line `y`, including its '\n' when it has
      one (every line but the last). */
  function Line(t: string, y: nat): (r: string)
    requires y < LenLines(t)
    ensures LineToChar(t, y) + |r| <= |t|
    ensures r == t[LineToChar(t, y)..LineToChar(t, y) + |r|]
  {
    var s := LineToChar(t, y);
    var k := IndexOf(t[s..], '\n');
    if s + k < |t| then t[s..s + k + 1] else t[s..]
  }

  /** A line holds no '\n' but its last character, and it ends in '\n'
      exactly when another line follows it. It runs up to the start of the
      next line, and the last line runs to the end of the text. */
  lemma LineShape(t: string, y: nat)
    requires y < LenLines(t)
    ensures var r := Line(t, y);
      && (forall j :: 0 <= j < |r| - 1 ==> r[j] != '\n')
      && (y + 1 < LenLines(t) <==> (|r| > 0 && r[|r| - 1] == '\n'))
      && (y + 1 < LenLines(t) ==> LineToChar(t, y) + |r| == LineToChar(t, y + 1))
      && (y + 1 == LenLines(t) ==> LineToChar(t, y) + |r| == |t|)
  {
    var s := LineToChar(t, y);
    var k := IndexOf(t[s..], '\n');
    assert t[s..][..k] == t[s..s + k];
    if s + k < |t| {
      LineEndsAtBreak(t, y, s, k);
    } else {
      LastLineHasNoBreak(t, y, s);
    }
  }

  /** A '\n' at `s + k`, the first after the start `s` of line `y`, begins line `y + 1`. */
  lemma LineEndsAtBreak(t: string, y: nat, s: nat, k: nat)
    requires y < LenLines(t) && s == LineToChar(t, y)
    requires s + k < |t| && t[s + k] == '\n' && '\n' !in t[s..s + k]
    ensures y + 1 < LenLines(t)
    ensures LineToChar(t, y + 1) == s + k + 1
  {
    LineStart(t, y);
    OccurrencesZero(t[s..s + k], '\n');
    assert t[..s + k + 1] == t[..s] + t[s..s + k] + ['\n'];
    OccurrencesAppend(t[..s], t[s..s + k], '\n');
    OccurrencesAppend(t[..s] + t[s..s + k], ['\n'], '\n');
    LineStartUnique(t, s + k + 1, y + 1);
  }

  /** When no '\n' follows the start of line `y`, line `y` is the last. */
  lemma LastLineHasNoBreak(t: string, y: nat, s: nat)
    requires y < LenLines(t) && s == LineToChar(t, y)
    requires '\n' !in t[s..]
    ensures y + 1 == LenLines(t)
  {
    LineStart(t, y);
    assert t == t[..s] + t[s..];
    OccurrencesAppend(t[..s], t[s..], '\n');
    OccurrencesZero(t[s..], '\n');
  }

  /** The length of line `y` as `line(y).chars().len()`, its '\n' included:
      the distance from its start to the start of the next line, or to the
      end of the text for the last line. */
  function LineLen(t: string, y: nat): (n: nat)
    requires y < LenLines(t)
    ensures LineToChar(t, y) + n <= |t|
  {
    LineShape(t, y);
    (if y + 1 < LenLines(t) then LineToChar(t, y + 1) else |t|) - LineToChar(t, y)
  }

  /** `LineLen` is the length of `Line`. */
  lemma LineLenIsLength(t: string, y: nat)
    requires y < LenLines(t)
    ensures LineLen(t, y) == |Line(t, y)|
  {
    LineShape(t, y);
  }

  /** `insert_char(i, c)`. */
  function Insert(t: string, i: nat, c: char): (r: string)
    requires i <= |t|
    ensures |r| == |t| + 1 && r[i] == c
    ensures r[..i] == t[..i] && r[i + 1..] == t[i..]
  {
    t[..i] + [c] + t[i..]
  }

  /** Inserting a character adds a line exactly when it is a '\n'. */
  lemma InsertLenLines(t: string, i: nat, c: char)
    requires i <= |t|
    ensures LenLines(Insert(t, i, c)) == LenLines(t) + (if c == '\n' then 1 else 0)
  {
    assert t == t[..i] + t[i..];
    assert Insert(t, i, c) == t[..i] + [c] + t[i..];
    OccurrencesAppend(t[..i], t[i..], '\n');
    OccurrencesAppend(t[..i] + [c], t[i..], '\n');
    OccurrencesAppend(t[..i], [c], '\n');
  }

  /** A character inserted at or after the start of line `y` leaves that
      start where it was. */
  lemma InsertAfterLineStart(t: string, y: nat, i: nat, c: char)
    requires y < LenLines(t) && LineToChar(t, y) <= i <= |t|
    ensures y < LenLines(Insert(t, i, c)) && LineToChar(Insert(t, i, c), y) == LineToChar(t, y)
  {
    var st := LineToChar(t, y);
    var u := Insert(t, i, c);
    assert u[..st] == u[..i][..st];
    LineStartStable(t, u, y);
  }

  /** Inserting the first character of `text` at `p` and then the rest
      just after it inserts `text` at `p`. */
  lemma InsertThenRest(t: string, p: nat, text: string)
    requires p <= |t| && text != []
    ensures Insert(t, p, text[0])[..p + 1] + text[1..] + Insert(t, p, text[0])[p + 1..] == t[..p] + text + t[p..]
  {
    var u := Insert(t, p, text[0]);
    assert u[..p + 1] == t[..p] + [text[0]];
    assert text == [text[0]] + text[1..];
  }

  /** A '\n' inserted at index `p` of line `y` adds a line, and the new
      line `y + 1` starts just after it. */
  lemma InsertLineBreak(t: string, y: nat, p: nat)
    requires p <= |t| && CharToLine(t, p) == y
    ensures LenLines(Insert(t, p, '\n')) == LenLines(t) + 1
    ensures LineToChar(Insert(t, p, '\n'), y + 1) == p + 1
  {
    var u := Insert(t, p, '\n');
    InsertLenLines(t, p, '\n');
    assert u[..p + 1] == t[..p] + ['\n'];
    OccurrencesAppend(t[..p], ['\n'], '\n');
    LineStartUnique(u, p + 1, y + 1);
  }

  /** `insert(i, s)`: the text `s` put in before character `i`. */
  function InsertText(t: string, i: nat, s: string): (r: string)
    requires i <= |t|
    ensures |r| == |t| + |s|
    ensures r[..i] == t[..i] && r[i..i + |s|] == s && r[i + |s|..] == t[i..]
  {
    t[..i] + s + t[i..]
  }

  /** `remove(lo..hi)`. */
  function Remove(t: string, lo: nat, hi: nat): (r: string)
    requires lo <= hi <= |t|
    ensures |r| == |t| - (hi - lo)
    ensures r[..lo] == t[..lo] && r[lo..] == t[hi..]
  {
    t[..lo] + t[hi..]
  }

  /** Removing the character just inserted gives the text back. */
  lemma InsertThenRemove(t: string, i: nat, c: char)
    requires i <= |t|
    ensures Remove(Insert(t, i, c), i, i + 1) == t
  {
    assert t == t[..i] + t[i..];
  }

  /** Removing a range loses one line per '\n' in it. */
  lemma RemoveLenLines(t: string, lo: nat, hi: nat)
    requires lo <= hi <= |t|
    ensures LenLines(Remove(t, lo, hi)) == LenLines(t) - Occurrences(t[lo..hi], '\n')
  {
    assert t == t[..lo] + t[lo..hi] + t[hi..];
    assert Remove(t, lo, hi) == t[..lo] + t[hi..];
    OccurrencesAppend(t[..lo], t[lo..hi], '\n');
    OccurrencesAppend(t[..lo] + t[lo..hi], t[hi..], '\n');
    OccurrencesAppend(t[..lo], t[hi..], '\n');
  }

  /** Where line `y` starts depends only on the text before it: an edit
      after that point leaves the start of line `y` where it was. */
  lemma {:induction false} LineStartStable(t: string, u: string, y: nat)
    requires y < LenLines(t)
    requires LineToChar(t, y) <= |u| && u[..LineToChar(t, y)] == t[..LineToChar(t, y)]
    ensures y < LenLines(u) && LineToChar(u, y) == LineToChar(t, y)
  {
    var s := LineToChar(t, y);
    LineStart(t, y);
    if y > 0 {
      assert u == u[..s] + u[s..];
      OccurrencesAppend(u[..s], u[s..], '\n');
      LineStartUnique(u, s, y);
    }
  }

  /** Removing a character of line `y` other than its line break (the one
      at `idx`, column `col - 1`) keeps line `y` where it starts, and the
      removal point on line `y`. */
  lemma RemoveWithinLine(t: string, y: nat, col: nat, idx: nat)
    requires y < LenLines(t) && 1 <= col <= LineLen(t, y)
    requires idx + 1 == LineToChar(t, y) + col
    ensures idx < |t|
    ensures CharToLine(Remove(t, idx, idx + 1), idx) == y
    ensures LineToChar(Remove(t, idx, idx + 1), y) == LineToChar(t, y)
  {
    var st := LineToChar(t, y);
    BreaksBeforeColumn(t, y, col, idx);
    var u := Remove(t, idx, idx + 1);
    assert u[..idx] == t[..idx];
    assert y < LenLines(u) && LineToChar(u, y) == st by {
      assert u[..st] == u[..idx][..st] && t[..st] == t[..idx][..st];
      LineStartStable(t, u, y);
    }
  }

  /** Line `y` holds no line break before column `col - 1`. */
  lemma NoBreakBeforeColumn(t: string, y: nat, col: nat, idx: nat)
    requires y < LenLines(t) && 1 <= col <= LineLen(t, y)
    requires idx + 1 == LineToChar(t, y) + col
    ensures idx < |t| && '\n' !in t[LineToChar(t, y)..idx]
  {
    var st := LineToChar(t, y);
    var r := Line(t, y);
    LineShape(t, y);
    LineLenIsLength(t, y);
    assert t[st..idx] == r[..col - 1];
    forall j | 0 <= j < col - 1 ensures r[j] != '\n' { }
  }

  /** Before column `col - 1` of line `y`, with `col` inside the line,
      the text holds exactly `y` line breaks. */
  lemma BreaksBeforeColumn(t: string, y: nat, col: nat, idx: nat)
    requires y < LenLines(t) && 1 <= col <= LineLen(t, y)
    requires idx + 1 == LineToChar(t, y) + col
    ensures idx < |t| && Occurrences(t[..idx], '\n') == y
  {
    NoBreakBeforeColumn(t, y, col, idx);
    LineStart(t, y);
    BreaksUpTo(t, LineToChar(t, y), idx, y);
  }

  /** A stretch without a line break adds none to the count. */
  lemma BreaksUpTo(t: string, st: nat, idx: nat, y: nat)
    requires st <= idx <= |t| && Occurrences(t[..st], '\n') == y && '\n' !in t[st..idx]
    ensures Occurrences(t[..idx], '\n') == y
  {
    OccurrencesZero(t[st..idx], '\n');
    assert t[..idx] == t[..st] + t[st..idx];
    OccurrencesAppend(t[..st], t[st..idx], '\n');
  }

  /** Removing the line break at `idx`, the one that ends line `y`, joins
      line `y + 1` to line `y`: the text loses a line, line `y` keeps its
      start, and the removal point stays on line `y`. */
  lemma RemoveLineBreak(t: string, y: nat, idx: nat)
    requires y + 1 < LenLines(t) && idx + 1 == LineToChar(t, y + 1)
    ensures t[idx] == '\n'
    ensures LenLines(Remove(t, idx, idx + 1)) == LenLines(t) - 1
    ensures CharToLine(Remove(t, idx, idx + 1), idx) == y
    ensures LineToChar(Remove(t, idx, idx + 1), y) == LineToChar(t, y)
    ensures LineToChar(t, y) <= idx
  {
    var u := Remove(t, idx, idx + 1);
    LineStart(t, y + 1);
    assert t[idx] == '\n' && Occurrences(t[..idx], '\n') == y by {
      assert t[..idx + 1] == t[..idx] + [t[idx]];
      OccurrencesAppend(t[..idx], [t[idx]], '\n');
    }
    assert LenLines(u) == LenLines(t) - 1 by {
      assert t[idx..idx + 1] == ['\n'];
      RemoveLenLines(t, idx, idx + 1);
    }
    assert u[..idx] == t[..idx];
    assert CharToLine(u, idx) == y;
    var s := LineToChar(u, y);
    assert s <= idx by {
      LineCharRoundTrip(u, y, idx);
    }
    assert LineToChar(t, y) == s by {
      assert t[..s] == t[..idx][..s] && u[..s] == u[..idx][..s];
      LineStartStable(u, t, y);
    }
  }

}
