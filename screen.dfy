/** The frame the editor keeps of the terminal (src/screen.rs): a flat
    vector of character cells, `w` cells per row, and a queue of the places
    that were touched since the last flush. The queue's units are mixed as in
    the source: when the queue was empty its first entry is a ROW index
    (`idx / w`), every later entry is the CELL offset of a row start. */
module Screen {
  import opened Strings
  import opened Support

  /** The cells of several lines: each line's characters followed by
      blanks up to `w`; a line longer than `w` is kept whole. */
  function Cells(w: nat, lines: seq<string>): seq<char>
  {
    if lines == [] then [] else PadRight(lines[0], w) + Cells(w, lines[1..])
  }

  /** Sum over the lines of max(length, w). */
  function PaddedLength(w: nat, lines: seq<string>): nat
  {
    if lines == [] then 0 else Max(|lines[0]|, w) + PaddedLength(w, lines[1..])
  }

  /** `string_to_vec(w, string)`: the lines of `string` as cells. */
  function StringToVec(w: nat, s: string): seq<char>
  {
    Cells(w, Lines(s))
  }

  /** Nothing is truncated: the cells are exactly as many as the padded
      lengths of the lines add up to. */
  lemma {:induction false} CellsLength(w: nat, lines: seq<string>)
    ensures |Cells(w, lines)| == PaddedLength(w, lines)
  {
    if lines != [] {
      CellsLength(w, lines[1..]);
    }
  }

  /** When no line is wider than `w`, the cells form a grid of |lines| rows
      of `w` cells. */
  lemma {:induction false} CellsGridLength(w: nat, lines: seq<string>)
    requires forall j :: 0 <= j < |lines| ==> |lines[j]| <= w
    ensures |Cells(w, lines)| == w * |lines|
  {
    if lines != [] {
      TailFits(w, lines);
      CellsGridLength(w, lines[1..]);
      MulStep(|lines|, w);
    }
  }

  /** In that grid, cell (row j, column k) is the k-th character of line j,
      or a blank after the end of the line. */
  lemma {:induction false} CellsGridAt(w: nat, lines: seq<string>, j: nat, k: nat)
    requires forall j :: 0 <= j < |lines| ==> |lines[j]| <= w
    requires j < |lines| && k < w
    ensures j * w + k < |Cells(w, lines)|
    ensures Cells(w, lines)[j * w + k] == if k < |lines[j]| then lines[j][k] else ' '
  {
    var head := PadRight(lines[0], w);
    var tail := lines[1..];
    assert Cells(w, lines) == head + Cells(w, tail);
    assert |head| == w;
    if j == 0 {
      PadRightAt(lines[0], w, k);
    } else {
      TailFits(w, lines);
      CellsGridAt(w, tail, j - 1, k);
      var i := (j - 1) * w + k;
      assert j * w + k == i + w by {
        MulStep(j, w);
      }
      assert Cells(w, lines)[i + w] == Cells(w, tail)[i];
      assert tail[j - 1] == lines[j];
    }
  }

  /** The lines after the first are no wider than `w` either. */
  lemma TailFits(w: nat, lines: seq<string>)
    requires lines != [] && forall j :: 0 <= j < |lines| ==> |lines[j]| <= w
    ensures forall j :: 0 <= j < |lines[1..]| ==> |lines[1..][j]| <= w
  {
    forall j | 0 <= j < |lines[1..]| ensures |lines[1..][j]| <= w {
      assert lines[1..][j] == lines[j + 1];
    }
  }

  /** Cell `k` of a line padded to `w`. */
  lemma PadRightAt(line: string, w: nat, k: nat)
    requires |line| <= w && k < w
    ensures k < |PadRight(line, w)|
    ensures PadRight(line, w)[k] == if k < |line| then line[k] else ' '
  {
    if k < |line| {
      assert PadRight(line, w)[..|line|][k] == PadRight(line, w)[k];
    }
  }

  /** One row more is `w` cells more. */
  lemma MulStep(a: nat, b: nat)
    requires a >= 1
    ensures a * b == (a - 1) * b + b && b * a == b * (a - 1) + b
  {
  }

  /** Index one past the last cell `replace_from` writes. */
  function DstEnd(dstLen: nat, idx: nat, srcLen: nat): nat
  {
    Min(dstLen, srcLen + idx)
  }

  /** The cells after `replace_from(idx, _, dst, src, _)`: the run that
      starts at `idx` is overwritten by the matching prefix of `src`, clipped
      at the end of `dst`, and nothing else changes. */
  function Replaced(dst: seq<char>, idx: nat, src: seq<char>): (r: seq<char>)
    requires idx <= |dst|
    ensures |r| == |dst|
    ensures forall i :: idx <= i < DstEnd(|dst|, idx, |src|) ==> r[i] == src[i - idx]
    ensures forall i :: 0 <= i < |dst| && !(idx <= i < DstEnd(|dst|, idx, |src|)) ==> r[i] == dst[i]
  {
    var e := DstEnd(|dst|, idx, |src|);
    dst[..idx] + src[..e - idx] + dst[e..]
  }

  /** The offsets i in [lo, hi) with i % w == 0, in increasing order. */
  function RowStarts(lo: nat, hi: nat, w: nat): seq<nat>
    requires w > 0
    decreases hi
  {
    if hi <= lo then [] else RowStarts(lo, hi - 1, w) + (if (hi - 1) % w == 0 then [hi - 1] else [])
  }

  /** `RowStarts` holds exactly the row starts of [lo, hi), each once and in
      increasing order. */
  lemma {:induction false} RowStartsSpec(lo: nat, hi: nat, w: nat)
    requires w > 0
    ensures forall i :: i in RowStarts(lo, hi, w) <==> lo <= i < hi && i % w == 0
    ensures forall a, b :: 0 <= a < b < |RowStarts(lo, hi, w)| ==>
      RowStarts(lo, hi, w)[a] < RowStarts(lo, hi, w)[b]
  {
    if hi > lo {
      RowStartsSpec(lo, hi - 1, w);
      var prev := RowStarts(lo, hi - 1, w);
      forall a | 0 <= a < |prev| ensures prev[a] < hi - 1 {
        assert prev[a] in prev;
      }
    }
  }

  /** What `replace_from` appends to the queue: the row of `idx` when the
      queue was empty, then the row starts it wrote over. */
  function Touched(queued: seq<nat>, idx: nat, w: nat, dstEnd: nat): seq<nat>
    requires w > 0
  {
    (if queued == [] then [idx / w] else []) + RowStarts(idx, dstEnd, w)
  }

  /** `replace_from(idx, w, dst, src, queued)`: copy `src` into the cells
      from `idx` on and queue the rows touched. The new queue is returned. */
  method ReplaceFrom(idx: nat, w: nat, dst: array<char>, src: seq<char>, queued: seq<nat>)
    returns (queued': seq<nat>)
    requires idx <= dst.Length && w > 0
    modifies dst
    ensures dst[..] == Replaced(old(dst[..]), idx, src)
    ensures queued' == queued + Touched(queued, idx, w, DstEnd(dst.Length, idx, |src|))
  {
    var dstEnd := Min(dst.Length, |src| + idx);
    var srcEnd := Min(dstEnd - idx, |src|);
    forall k | idx <= k < dstEnd {
      dst[k] := src[k - idx];
    }
    queued' := queued;
    if queued' == [] {
      queued' := queued' + [idx / w];
    }
    ghost var base := queued';
    var i := idx;
    while i < dstEnd
      invariant idx <= i <= dstEnd
      invariant queued' == base + RowStarts(idx, i, w)
    {
      if i % w == 0 {
        queued' := queued' + [i];
      }
      i := i + 1;
    }
  }

  /** The cells after `insert_at(idx, w, dst, _, chr)`: `chr` is written at
      `idx` and the `w - 1` cells from `idx` on move one to the right; the
      cell at `idx + w - 1` is dropped and nothing else changes. */
  function Shifted(dst: seq<char>, idx: nat, w: nat, chr: char): (r: seq<char>)
    requires 0 < w && idx + w <= |dst|
    ensures |r| == |dst|
    ensures r[idx] == chr
    ensures forall i :: idx < i < idx + w ==> r[i] == dst[i - 1]
    ensures forall i :: 0 <= i < |dst| && !(idx <= i < idx + w) ==> r[i] == dst[i]
  {
    dst[..idx] + [chr] + dst[idx..idx + w - 1] + dst[idx + w..]
  }

  /** `insert_at(idx, w, dst, queued, chr)`: type `chr` at cell `idx` by
      rebuilding the cells from the start of its row to `idx + w` and handing
      them to `replace_from`. */
  method InsertAt(idx: nat, w: nat, dst: array<char>, queued: seq<nat>, chr: char)
    returns (queued': seq<nat>)
    requires w > 0 && idx + w <= dst.Length
    modifies dst
    ensures dst[..] == Shifted(old(dst[..]), idx, w, chr)
    ensures queued' == queued + Touched(queued, RowStart(idx, w), w, idx + w)
  {
    var start := RowStart(idx, w);
    var end := idx + w;
    var i := idx - start;
    ghost var before := dst[..];
    var src := dst[start..end];
    src := src[..i] + [chr] + src[i..];
    src := src[..|src| - 1];
    assert DstEnd(dst.Length, start, |src|) == end
      && Replaced(before, start, src) == Shifted(before, idx, w, chr) by {
      WindowRebuilt(before, start, idx, w, chr, src);
    }
    queued' := ReplaceFrom(start, w, dst, src, queued);
  }

  /** Writing back the rebuilt window of `insert_at` gives the shifted
      cells. */
  lemma WindowRebuilt(d: seq<char>, start: nat, idx: nat, w: nat, chr: char, src: seq<char>)
    requires 0 < w && start <= idx < start + w && idx + w <= |d|
    requires src == (d[start..idx + w][..idx - start] + [chr] + d[start..idx + w][idx - start..])[..w + idx - start]
    ensures DstEnd(|d|, start, |src|) == idx + w
    ensures Replaced(d, start, src) == Shifted(d, idx, w, chr)
  {
    var i := idx - start;
    var window := d[start..idx + w];
    var a := d[start..idx];
    var b := d[idx..idx + w - 1];
    assert window[..i] == a;
    assert window[i..] == d[idx..idx + w];
    assert (window[..i] + [chr] + window[i..])[..w + i] == a + [chr] + window[i..][..w - 1];
    assert window[i..][..w - 1] == b;
    assert src == a + [chr] + b;
    var r := Replaced(d, start, src);
    var s := Shifted(d, idx, w, chr);
    forall p | 0 <= p < |d| ensures r[p] == s[p] {
      if start <= p < idx {
        assert r[p] == src[p - start] == a[p - start] == d[p];
      } else if p == idx {
        assert r[p] == src[i];
      } else if idx < p < idx + w {
        assert r[p] == src[p - start] == b[p - start - i - 1] == d[p - 1];
      }
    }
  }

  /** The rows `insert_at` queues when the queue was empty: the row index
      of `idx`, the offset of its row's start, and the offset of the next
      row's start when `idx` is not itself a row start (the shifted window
      then reaches into the next row). */
  lemma InsertAtQueue(idx: nat, w: nat)
    requires w > 0
    ensures Touched([], RowStart(idx, w), w, idx + w) ==
      [idx / w, RowStart(idx, w)] + (if idx % w != 0 then [RowStart(idx, w) + w] else [])
  {
    var q := idx / w;
    assert RowStart(idx, w) == q * w;
    assert (q * w) / w == q by { DivOfMultiple(q, w); }
    RowStartsWindow(q, w, idx % w);
  }

  /** `(q * w) / w == q` and `(q * w) % w == 0`. */
  lemma DivOfMultiple(q: nat, w: nat)
    requires w > 0
    ensures (q * w) / w == q && (q * w) % w == 0
  {
    var a := q * w;
    var d := a / w;
    var m := a % w;
    assert a == d * w + m && 0 <= m < w;
    assert (q - d) * w == m;
    MulSign(q - d, w);
  }

  /** A nonzero multiple of `w` is at least `w` away from 0. */
  lemma MulSign(x: int, w: int)
    requires w > 0
    ensures x >= 1 ==> x * w >= w
    ensures x <= -1 ==> x * w <= -w
  {
  }

  /** The offset of the first cell of the row that holds cell `idx`. */
  function RowStart(idx: nat, w: nat): (start: nat)
    requires w > 0
    ensures start <= idx < start + w
    ensures idx - start == idx % w
  {
    assert idx == (idx / w) * w + idx % w;
    (idx / w) * w
  }

  /** An offset strictly between two consecutive row starts is no row
      start. */
  lemma NotARowStart(q: nat, w: nat, k: nat)
    requires 0 < k < w
    ensures (q * w + k) % w != 0
  {
    var a := q * w + k;
    var d := a / w;
    var m := a % w;
    assert a == d * w + m && 0 <= m < w;
    assert (q - d) * w == m - k;
    MulSign(q - d, w);
  }

  /** The row starts of [q*w, q*w + w + k) for k < w: the start of row q,
      and the start of row q + 1 when k > 0. */
  lemma {:induction false} RowStartsWindow(q: nat, w: nat, k: nat)
    requires w > 0 && k < w
    ensures RowStarts(q * w, q * w + w + k, w) == [q * w] + (if k > 0 then [q * w + w] else [])
  {
    var s := q * w;
    DivOfMultiple(q, w);
    DivOfMultiple(q + 1, w);
    assert (q + 1) * w == s + w;
    RowStartsGap(s, s + 1, s + w, w, q);
    assert RowStarts(s, s + 1, w) == [s] by {
      assert RowStarts(s, s, w) == [];
    }
    RowStartsConcat(s, s + 1, s + w, w);
    if k > 0 {
      RowStartsGap(s + w, s + w + 1, s + w + k, w, q + 1);
      assert RowStarts(s + w, s + w + 1, w) == [s + w] by {
        assert RowStarts(s + w, s + w, w) == [];
      }
      RowStartsConcat(s + w, s + w + 1, s + w + k, w);
      RowStartsConcat(s, s + w, s + w + k, w);
    } else {
      assert RowStarts(s + w, s + w, w) == [];
    }
  }

  /** Splitting the range splits the row starts. */
  lemma {:induction false} RowStartsConcat(lo: nat, mid: nat, hi: nat, w: nat)
    requires w > 0 && lo <= mid <= hi
    ensures RowStarts(lo, hi, w) == RowStarts(lo, mid, w) + RowStarts(mid, hi, w)
    decreases hi
  {
    if hi > mid {
      RowStartsConcat(lo, mid, hi - 1, w);
    } else {
      assert RowStarts(mid, hi, w) == [];
    }
  }

  /** Strictly inside a row there is no row start. */
  lemma {:induction false} RowStartsGap(base: nat, lo: nat, hi: nat, w: nat, q: nat)
    requires w > 0 && base == q * w && base < lo <= hi <= base + w
    ensures RowStarts(lo, hi, w) == []
    decreases hi
  {
    if hi > lo {
      NotARowStart(q, w, hi - 1 - base);
      RowStartsGap(base, lo, hi - 1, w, q);
    }
  }
}
