/** The parts of Rust's `str`/`String` API that the editor relies on, for
    ASCII text: `lines()`, `replace("\t", "    ")`, padding with spaces, and
    counting a character. */
module Strings {

  /** How many times `c` occurs in `s`. */
  function Occurrences(s: string, c: char): (n: nat)
    ensures n <= |s|
  {
    if s == [] then 0 else (if s[0] == c then 1 else 0) + Occurrences(s[1..], c)
  }

  /** `c` does not occur exactly when it is counted zero times. */
  lemma {:induction false} OccurrencesZero(s: string, c: char)
    ensures Occurrences(s, c) == 0 <==> c !in s
  {
    if s != [] {
      OccurrencesZero(s[1..], c);
      assert s == [s[0]] + s[1..];
    }
  }

  /** Counting is additive over concatenation. */
  lemma {:induction false} OccurrencesAppend(a: string, b: string, c: char)
    ensures Occurrences(a + b, c) == Occurrences(a, c) + Occurrences(b, c)
  {
    if a == [] {
      assert a + b == b;
    } else {
      assert (a + b)[1..] == a[1..] + b;
      OccurrencesAppend(a[1..], b, c);
    }
  }

  /** `n` blanks. */
  function Spaces(n: nat): (r: string)
    ensures |r| == n
    ensures forall i :: 0 <= i < n ==> r[i] == ' '
  {
    seq(n, _ => ' ')
  }

  /** `s` followed by blanks up to length `n`; a string already `n` long or
      longer is left as it is. */
  function PadRight(s: string, n: nat): (r: string)
    ensures |r| == if |s| < n then n else |s|
    ensures r[..|s|] == s
    ensures forall i :: |s| <= i < |r| ==> r[i] == ' '
  {
    s + Spaces(if |s| < n then n - |s| else 0)
  }

  /** The index of the first `c` in `s`, or `|s|` when there is none. */
  function IndexOf(s: string, c: char): (k: nat)
    ensures k <= |s|
    ensures c !in s[..k]
    ensures k < |s| ==> s[k] == c
    ensures k == |s| <==> c !in s
  {
    if s == [] then 0
    else if s[0] == c then 0
    else
      assert s[1..][..IndexOf(s[1..], c)] == s[1..1 + IndexOf(s[1..], c)];
      1 + IndexOf(s[1..], c)
  }

  /** A line ending may be "\r\n": the '\r' before the '\n' is dropped. */
  function StripCarriageReturn(line: string): (r: string)
    ensures r == line || (line == r + ['\r'])
    ensures (|line| > 0 && line[|line| - 1] == '\r') <==> line == r + ['\r']
  {
    if |line| > 0 && line[|line| - 1] == '\r' then line[..|line| - 1] else line
  }

  /** `str::lines()`: the text split at each '\n' (or "\r\n"), terminators
      removed; a final line ending is optional, so "a\n" and "a" both give
      ["a"], and "" gives no line at all. */
  function Lines(s: string): (r: seq<string>)
    ensures forall i :: 0 <= i < |r| ==> '\n' !in r[i]
    ensures s == [] <==> r == []
    decreases |s|
  {
    if s == [] then []
    else
      var k := IndexOf(s, '\n');
      if k == |s| then [s]
      else
        assert '\n' !in s[..k];
        [StripCarriageReturn(s[..k])] + Lines(s[k + 1..])
  }

  /** `s.replace("\t", "    ")`: every tab becomes four spaces. */
  function ReplaceTabs(s: string): (r: string)
    ensures |s| == 1 ==> r == if s[0] == '\t' then "    " else s
    ensures |r| == |s| + 3 * Occurrences(s, '\t')
    ensures '\t' !in s ==> r == s
    ensures '\t' !in r
    ensures forall c :: c != '\t' && c != ' ' ==> Occurrences(r, c) == Occurrences(s, c)
  {
    if s == [] then []
    else
      var rest := ReplaceTabs(s[1..]);
      var head := if s[0] == '\t' then "    " else [s[0]];
      assert forall c :: Occurrences(head + rest, c) == Occurrences(head, c) + Occurrences(rest, c) by {
        forall c { OccurrencesAppend(head, rest, c); }
      }
      assert forall c :: c != ' ' ==> Occurrences("    ", c) == 0 by {
        forall c | c != ' ' { OccurrencesZero("    ", c); }
      }
      head + rest
  }

  /** Replacing is done piece by piece: with the one-character case of
      `ReplaceTabs`, this pins down every character of the result. */
  lemma {:induction false} ReplaceTabsAppend(a: string, b: string)
    ensures ReplaceTabs(a + b) == ReplaceTabs(a) + ReplaceTabs(b)
  {
    if a == [] {
      assert a + b == b;
    } else {
      assert (a + b)[0] == a[0] && (a + b)[1..] == a[1..] + b;
      ReplaceTabsAppend(a[1..], b);
    }
  }

  /** The lines, each followed by a '\n'. */
  function Terminated(rows: seq<string>): string
  {
    if rows == [] then [] else rows[0] + "\n" + Terminated(rows[1..])
  }

  /** `lines()` loses nothing but the line breaks of a text without '\r':
      putting a '\n' after every line gives the text back, with a final
      '\n' added when it had none. */
  lemma {:induction false} LinesRoundTrip(s: string)
    requires s != [] && '\r' !in s
    ensures Terminated(Lines(s)) == if s[|s| - 1] == '\n' then s else s + "\n"
    decreases |s|
  {
    var k := IndexOf(s, '\n');
    if k == |s| {
      assert s[|s| - 1] in s;
    } else {
      var rest := s[k + 1..];
      assert s[..k] == [] || s[..k][k - 1] in s;
      assert StripCarriageReturn(s[..k]) == s[..k];
      assert Lines(s) == [s[..k]] + Lines(rest);
      assert s == s[..k] + "\n" + rest;
      if rest != [] {
        assert forall c :: c in rest ==> c in s;
        LinesRoundTrip(rest);
        assert rest[|rest| - 1] == s[|s| - 1];
      }
    }
  }

  /** The strings of `rows`, one after the other. */
  function Concat(rows: seq<string>): (r: string)
  {
    if rows == [] then [] else rows[0] + Concat(rows[1..])
  }

  /** Appending one more row appends its text. */
  lemma {:induction false} ConcatAppend(rows: seq<string>, last: string)
    ensures Concat(rows + [last]) == Concat(rows) + last
  {
    if rows == [] {
      assert rows + [last] == [last];
    } else {
      assert (rows + [last])[1..] == rows[1..] + [last];
      ConcatAppend(rows[1..], last);
    }
  }
}
