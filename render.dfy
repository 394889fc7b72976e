/** What `text_pane::draw` computes besides curses output: the prefix-sum
    index `entry_offsets`, the `upper_bound` lookup from a line to its
    entry, the colour rule, and the rows it paints. */
module Render {
  import opened PaneTypes
  import opened Ingestion
  import Scroll

  function Min(a: int, b: int): int { if a < b then a else b }

  /** `entry_offsets`: 0, then the running sums of the entries' cached
      counts, so entry `k` is meant to own lines `[o[k], o[k + 1])`. */
  function Offsets(es: seq<Entry>): (o: seq<int>)
    ensures |o| == |es| + 1 && o[0] == 0 && o[|es|] == SumCounts(es)
  {
    if es == [] then [0]
    else
      var o := Offsets(es[..|es| - 1]);
      o + [o[|o| - 1] + es[|es| - 1].foldedLineCount]
  }

  /** The index steps by each entry's cached count. */
  lemma {:induction false} OffsetsStep(es: seq<Entry>, k: int)
    requires 0 <= k < |es|
    ensures Offsets(es)[k + 1] - Offsets(es)[k] == es[k].foldedLineCount
  {
    var init := es[..|es| - 1];
    assert Offsets(es) == Offsets(init) + [Offsets(init)[|init|] + es[|es| - 1].foldedLineCount];
    if k < |init| {
      OffsetsStep(init, k);
      assert init[k] == es[k];
    }
  }

  /** Sorted, as `std::upper_bound` needs. */
  predicate Ascending(o: seq<int>)
  {
    forall i, j | 0 <= i <= j < |o| :: o[i] <= o[j]
  }

  /** A sequence that never steps down is sorted. */
  lemma {:induction false} StepwiseAscending(o: seq<int>)
    requires forall k | 0 <= k < |o| - 1 :: o[k] <= o[k + 1]
    ensures Ascending(o)
  {
    if |o| > 1 {
      var init := o[..|o| - 1];
      StepwiseAscending(init);
      forall i, j | 0 <= i <= j < |o|
        ensures o[i] <= o[j]
      {
        if j < |o| - 1 {
          assert init[i] <= init[j];
        } else if i < j {
          assert init[i] <= init[|o| - 2];
        }
      }
    }
  }

  /** The counts are never negative, so the index is sorted. */
  lemma OffsetsAscending(es: seq<Entry>)
    ensures Ascending(Offsets(es))
  {
    var o := Offsets(es);
    forall k | 0 <= k < |o| - 1
      ensures o[k] <= o[k + 1]
    {
      OffsetsStep(es, k);
    }
    StepwiseAscending(o);
  }

  /** Every entry's lines, as the index places them, start at 0 or later and
      end by the total. */
  lemma EntryWithinLines(es: seq<Entry>, k: nat)
    requires k < |es|
    ensures 0 <= Offsets(es)[k]
    ensures Offsets(es)[k] + es[k].foldedLineCount <= SumCounts(es)
  {
    var o := Offsets(es);
    OffsetsAscending(es);
    OffsetsStep(es, k);
    assert o[0] <= o[k] && o[k + 1] <= o[|es|];
  }

  /** Entry `k` owns `line` under the index `o`. */
  predicate Owns(o: seq<int>, k: int, line: int)
  {
    0 <= k < |o| - 1 && o[k] <= line < o[k + 1]
  }

  /** At most one entry owns a line. */
  lemma OwnerUnique(es: seq<Entry>, line: int, k1: int, k2: int)
    requires Owns(Offsets(es), k1, line) && Owns(Offsets(es), k2, line)
    ensures k1 == k2
  {
    OffsetsAscending(es);
  }

  /** With correct counts, the lines before the last entry number exactly
      where the index places that entry. */
  lemma InitFlattenLength(es: seq<Entry>)
    requires es != [] && AllConsistent(es)
    ensures AllConsistent(es[..|es| - 1])
    ensures |Flatten(es[..|es| - 1])| == Offsets(es)[|es| - 1] == Offsets(es[..|es| - 1])[|es| - 1]
  {
    SumCountsOfConsistent(es[..|es| - 1]);
  }

  /** When every cached count is right, the owner of flattened line `line`
      holds that very line, at its offset within the entry. */
  lemma {:induction false} OwnerHoldsLine(es: seq<Entry>, k: int, line: int)
    requires AllConsistent(es)
    requires Owns(Offsets(es), k, line)
    ensures 0 <= line < |Flatten(es)| && line - Offsets(es)[k] < |es[k].content|
    ensures Flatten(es)[line] == es[k].content[line - Offsets(es)[k]]
  {
    var n := |es| - 1;
    var init := es[..n];
    var prefix := Flatten(init);
    InitFlattenLength(es);
    EntryWithinLines(es, k);
    OffsetsStep(es, k);
    assert Flatten(es) == prefix + es[n].content;
    if k < n {
      assert Offsets(init)[k] == Offsets(es)[k] && Offsets(init)[k + 1] == Offsets(es)[k + 1];
      OwnerHoldsLine(init, k, line);
      assert init[k] == es[k];
      assert Flatten(es)[line] == prefix[line];
    } else {
      assert Flatten(es)[line] == es[n].content[line - |prefix|];
    }
  }

  /** `std::upper_bound` on a sorted sequence: the first index whose value
      exceeds `x`, or `|a|` if none does. */
  method UpperBound(a: seq<int>, x: int) returns (k: nat)
    requires Ascending(a)
    ensures k <= |a|
    ensures forall i | 0 <= i < k :: a[i] <= x
    ensures forall i | k <= i < |a| :: x < a[i]
  {
    var lo, hi := 0, |a|;
    while lo < hi
      invariant 0 <= lo <= hi <= |a|
      invariant forall i | 0 <= i < lo :: a[i] <= x
      invariant forall i | hi <= i < |a| :: x < a[i]
    {
      var mid := lo + (hi - lo) / 2;
      if a[mid] <= x {
        lo := mid + 1;
      } else {
        hi := mid;
      }
    }
    k := lo;
  }

  /** The colour of a row: darkened before highlighted before white, and the
      active variant exactly on the cursor's entry in highlighted style. */
  function RowColor(e: Entry, isCurrent: bool, style: CursorStyle): (c: Color)
    ensures e.HasFlag(EntryDarkened) ==> c == CDarkGray || c == HDarkGray
    ensures !e.HasFlag(EntryDarkened) && e.HasFlag(EntryHighlighted) ==> c == CYellow || c == HYellow
    ensures !e.HasFlag(EntryDarkened) && !e.HasFlag(EntryHighlighted) ==> c == CWhite || c == HWhite
    ensures c.IsActive() <==> isCurrent && style == CursorHighlighted
  {
    var active := isCurrent && style == CursorHighlighted;
    if e.HasFlag(EntryDarkened) then (if active then HDarkGray else CDarkGray)
    else if e.HasFlag(EntryHighlighted) then (if active then HYellow else CYellow)
    else (if active then HWhite else CWhite)
  }

  /** One painted row: the window row, the flattened line shown, the entry
      owning it, its colour, whether the cursor brackets are printed beside
      it, and the text. */
  datatype PaintedRow = PaintedRow(row: nat, line: nat, entry: nat, color: Color, bracketed: bool, text: string)

  /** Row `r` is window row `j` of a viewport starting at `start`, and shows
      what `draw` shows there. */
  predicate PaintsLine(r: PaintedRow, j: nat, start: int, o: seq<int>, es: seq<Entry>,
                       cursorPos: nat, style: CursorStyle, lines: seq<string>)
  {
    && r.row == j && r.line == start + j && r.line < |lines| && r.text == lines[r.line]
    && Owns(o, r.entry, r.line) && r.entry < |es|
    && r.color == RowColor(es[r.entry], r.entry == cursorPos, style)
    && r.bracketed == (r.entry == cursorPos && style == CursorBracketed)
  }

  /** The `partial_sum` loop of `draw`: builds `entry_offsets`. */
  method EntryOffsets(es: seq<Entry>) returns (o: seq<int>)
    ensures o == Offsets(es)
  {
    o := [0];
    for k := 0 to |es|
      invariant o == Offsets(es[..k])
    {
      assert es[..k + 1][..k] == es[..k];
      o := o + [o[k] + es[k].foldedLineCount];
    }
    assert es[..|es|] == es;
  }

  /** Every line a viewport from `start` paints, at most `height` of them,
      lies below the sum of the cached counts, so `upper_bound` finds an
      entry for it. Lines past the window are skipped before any lookup. */
  predicate RowsCovered(es: seq<Entry>, lines: seq<string>, start: int, height: nat)
  {
    Min(height, |lines| - start) == 0 || start + Min(height, |lines| - start) <= SumCounts(es)
  }

  /** Counts that cover every line cover every viewport within the lines. */
  lemma CountsCoverRows(es: seq<Entry>, lines: seq<string>, start: int, height: nat)
    requires SumCounts(es) >= |lines| && 0 <= start <= |lines|
    ensures RowsCovered(es, lines, start, height)
  {
  }

  /** The painting loop of `draw`: walks lines `start` to `end_offset`,
      skips rows once the window is full, finds each line's entry with
      `upper_bound` and picks its colour and brackets. */
  method PaintRows(o: seq<int>, es: seq<Entry>, lines: seq<string>, start: int, height: nat,
                   cursorPos: nat, style: CursorStyle) returns (rows: seq<PaintedRow>)
    requires o == Offsets(es) && lines != []
    requires 0 <= start <= |lines| && RowsCovered(es, lines, start, height)
    ensures |rows| == Min(height, |lines| - start)
    ensures forall j | 0 <= j < |rows| :: PaintsLine(rows[j], j, start, o, es, cursorPos, style, lines)
  {
    var endOffset := start + height;
    if endOffset > |lines| - 1 {
      endOffset := |lines| - 1;
    }
    OffsetsAscending(es);
    var displayLine := 0;
    rows := [];
    var currentLine := start;
    while currentLine <= endOffset
      invariant start <= currentLine <= endOffset + 1
      invariant displayLine == |rows| == Min(currentLine - start, height)
      invariant forall j | 0 <= j < |rows| :: PaintsLine(rows[j], j, start, o, es, cursorPos, style, lines)
    {
      if displayLine < height {
        var upper := UpperBound(o, currentLine);
        var currentEntry := upper - 1;
        var isCurrent := currentEntry == cursorPos;
        var color := RowColor(es[currentEntry], isCurrent, style);
        var bracketed := isCurrent && style == CursorBracketed;
        rows := rows + [PaintedRow(displayLine, currentLine, currentEntry, color, bracketed, lines[currentLine])];
        displayLine := displayLine + 1;
      }
      currentLine := currentLine + 1;
    }
  }

  /** `max_offset()` on values: how far `total` lines can scroll in a window
      `height` rows high. */
  function MaxStart(total: int, height: int): (r: int)
    ensures r >= 0 && r + height >= total
    ensures r == 0 <==> total <= height
    ensures r > 0 ==> r + height == total
  {
    if total - height > 0 then total - height else 0
  }

  /** The body of `draw` on the pane's state as values: the new scroll
      offset for the cursor's entry, the scrollbar decision and the rows. */
  method DrawView(es: seq<Entry>, lines: seq<string>, height: nat, oldStart: int, cursorPos: nat,
                  style: CursorStyle, menuScroll: bool)
    returns (start: int, scrollbar: bool, rows: seq<PaintedRow>)
    requires cursorPos < |es| && lines != []
    requires RowsCovered(es, lines, Scroll.StartPos(oldStart, Offsets(es)[cursorPos], height, |lines|,
                                                    es[cursorPos].foldedLineCount, menuScroll), height)
    ensures start == Scroll.StartPos(oldStart, Offsets(es)[cursorPos], height, |lines|,
                                     es[cursorPos].foldedLineCount, menuScroll)
    ensures 0 <= start <= |lines| && (|lines| <= height ==> start == 0)
    ensures (Offsets(es)[cursorPos] + es[cursorPos].foldedLineCount <= |lines|
             && (menuScroll || oldStart <= MaxStart(|lines|, height))) ==> start <= MaxStart(|lines|, height)
    ensures scrollbar == (MaxStart(|lines|, height) > 0)
    ensures |rows| == Min(height, |lines| - start)
    ensures forall j | 0 <= j < |rows| :: PaintsLine(rows[j], j, start, Offsets(es), es, cursorPos, style, lines)
  {
    var offsets := EntryOffsets(es);
    var curOffset := offsets[cursorPos];
    var span := es[cursorPos].foldedLineCount;
    start := Scroll.CalcStartPos(oldStart, curOffset, height, |lines|, span, menuScroll);
    if curOffset + span <= |lines| && (menuScroll || oldStart <= MaxStart(|lines|, height)) {
      EntryWithinLines(es, cursorPos);
      Scroll.StartPosWithinMaxOffset(oldStart, curOffset, height, |lines|, span, menuScroll);
    }
    scrollbar := MaxStart(|lines|, height) > 0;
    rows := PaintRows(offsets, es, lines, start, height, cursorPos, style);
  }

  /** A stale trailing count can make the counts cover more lines than
      there are. For the lines `a b c <blank> d` the trailing entry carries
      the first entry's count 4: with the cursor on it, a 3-row paging
      viewport from the top jumps to line 5, past `max_offset()` (2), and no
      row is painted. */
  lemma StaleCountScrollsPastEnd()
    ensures var lines := ["a", "b", "c", "", "d"];
      var es := Ingest(lines);
      && es == [Entry(["a", "b", "c", ""], EntryDefault, 4), Entry(["d"], EntryDefault, 4)]
      && SumCounts(es) == 8 > |lines|
      && Scroll.StartPos(0, Offsets(es)[1], 3, |lines|, es[1].foldedLineCount, false) == 5
      && MaxStart(|lines|, 3) == 2
      && Min(3, |lines| - 5) == 0
  {
    var es := [Entry(["a", "b", "c", ""], EntryDefault, 4), Entry(["d"], EntryDefault, 4)];
    IngestStaleExample();
    assert Offsets(es) == [0, 4, 8] by {
      assert es[..1] == [es[0]];
      assert [es[0]][..0] == [];
    }
    assert SumCounts(es) == 8;
  }

  /** Counts short of the line count still draw when the painted lines are
      covered. For the lines `a <blank> b c d` the trailing entry keeps the
      first entry's count 2, so the counts add up to 4 over 5 lines; with the
      cursor on the first entry, a 3-row paging viewport from the top stays
      at line 0 and paints lines 0 to 2, each of which has an entry. */
  lemma ShortCountsStillDrawn()
    ensures var lines := ["a", "", "b", "c", "d"];
      var es := Ingest(lines);
      && es == [Entry(["a", ""], EntryDefault, 2), Entry(["b", "c", "d"], EntryDefault, 2)]
      && SumCounts(es) == 4 < |lines|
      && Scroll.StartPos(0, Offsets(es)[0], 3, |lines|, es[0].foldedLineCount, false) == 0
      && RowsCovered(es, lines, 0, 3)
  {
    var es := [Entry(["a", ""], EntryDefault, 2), Entry(["b", "c", "d"], EntryDefault, 2)];
    IngestShortExample();
    assert Offsets(es) == [0, 2, 4] by {
      assert es[..1] == [es[0]];
      assert [es[0]][..0] == [];
    }
    assert SumCounts(es) == 4;
  }

  /** A painted row's text is its entry's line, at the line's place in that
      entry, whenever the cached counts are right and the flat lines are the
      entries' lines. */
  lemma PaintedTextBelongsToEntry(r: PaintedRow, j: nat, start: int, o: seq<int>, es: seq<Entry>,
                                  cursorPos: nat, style: CursorStyle, lines: seq<string>)
    requires o == Offsets(es) && PaintsLine(r, j, start, o, es, cursorPos, style, lines)
    requires AllConsistent(es) && Flatten(es) == lines
    ensures r.line - o[r.entry] < |es[r.entry].content|
    ensures r.text == es[r.entry].content[r.line - o[r.entry]]
  {
    OwnerHoldsLine(es, r.entry, r.line);
  }
}
