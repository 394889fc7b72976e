/** The `text_pane` widget: a scrolling view of folded text, grouped into
    entries, with a cursor entry and a scroll offset, drawn into a window
    it is bound to for its whole life. */
module Windowing {
  import opened PaneTypes
  import Ingestion
  import Scroll
  import Render

  /** A curses window. The pane only reads its size (`getmaxx`, `getmaxy`). */
  class Window {
    var maxX: nat
    var maxY: nat

    constructor (maxX: nat, maxY: nat)
      ensures this.maxX == maxX && this.maxY == maxY
    {
      this.maxX := maxX;
      this.maxY := maxY;
    }
  }

  class TextPane {
    /** The window, bound at construction and never rebound. */
    const w: Window
    /** The cursor decoration printed left and right of the cursor's rows. */
    var cursorText: (string, string)
    var inputDataset: seq<Entry>
    var outputStrings: seq<string>
    /** The first flattened line shown. */
    var cursorOffset: int
    /** The cursor, an index into `inputDataset`. */
    var cursorPos: SizeT
    /** Declared for the pane in the header; the line counts in use are the
        entries' own. */
    var foldedLineCount: nat
    var cursorColor: Color
    var cursorStyle: CursorStyle
    var scrollbarPos: ScrollbarPos
    var wrapCursor: bool

    /** Binds the window and makes the cursor colour white; every other field
        takes its declared default. */
    constructor (w: Window)
      ensures this.w == w && cursorColor == CWhite
      ensures cursorText == (" ", " ") && inputDataset == [] && outputStrings == []
      ensures cursorOffset == 0 && cursorPos == 0 && foldedLineCount == 0
      ensures cursorStyle == CursorHidden && scrollbarPos == ScrollbarLeft && !wrapCursor
      ensures forall u: string -> int :: TextWidth(u) == w.maxX - 1 - 2 * u(" ")
    {
      this.w := w;
      cursorText := (" ", " ");
      inputDataset := [];
      outputStrings := [];
      cursorOffset := 0;
      cursorPos := 0;
      foldedLineCount := 0;
      cursorStyle := CursorHidden;
      scrollbarPos := ScrollbarLeft;
      wrapCursor := false;
      cursorColor := CWhite;
    }

    /** What `draw` needs to index safely: entries, a cursor among them,
        non-empty flattened lines, and cached counts that cover every line
        the viewport `draw` computes will paint. */
    predicate Drawable(menuScroll: bool)
      reads this, w
    {
      && inputDataset != [] && cursorPos < |inputDataset|
      && outputStrings != []
      && Render.RowsCovered(inputDataset, outputStrings,
                            Scroll.StartPos(cursorOffset, Render.Offsets(inputDataset)[cursorPos], w.maxY,
                                            |outputStrings|, inputDataset[cursorPos].foldedLineCount, menuScroll),
                            w.maxY)
    }

    /** Counts that cover every line make the pane drawable from any scroll
        offset, in either scroll mode. */
    lemma DrawableWhenCountsCover(menuScroll: bool)
      requires inputDataset != [] && cursorPos < |inputDataset| && outputStrings != []
      requires Ingestion.SumCounts(inputDataset) >= |outputStrings|
      ensures Drawable(menuScroll)
    {
      var cur := Render.Offsets(inputDataset)[cursorPos];
      var span := inputDataset[cursorPos].foldedLineCount;
      Scroll.StartPosBounds(cursorOffset, cur, w.maxY, |outputStrings|, span, menuScroll);
      Render.CountsCoverRows(inputDataset, outputStrings,
                             Scroll.StartPos(cursorOffset, cur, w.maxY, |outputStrings|, span, menuScroll), w.maxY);
    }

    /** `num_lines`: the number of flattened lines. */
    function NumLines(): int
      reads this
    {
      |outputStrings|
    }

    /** `max_offset`: how far the viewport can scroll before it would show
        rows past the last line; 0 exactly when every line fits. */
    function MaxOffset(): (r: nat)
      reads this, w
      ensures r == 0 <==> |outputStrings| <= w.maxY
      ensures r + w.maxY >= |outputStrings|
      ensures r > 0 ==> r + w.maxY == |outputStrings|
    {
      Render.MaxStart(NumLines(), w.maxY)
    }

    /** `text_width`: the columns left for text once the scrollbar column
        (unless the scrollbar is off) and both cursor decorations are taken
        from the window width. `utf8Width` measures display width. */
    function TextWidth(utf8Width: string -> int): (r: int)
      reads this, w
      ensures r + utf8Width(cursorText.0) + utf8Width(cursorText.1)
                + (if scrollbarPos == ScrollbarNone then 0 else 1) == w.maxX
    {
      var cursorWidth := utf8Width(cursorText.0) + utf8Width(cursorText.1);
      var adj := if scrollbarPos == ScrollbarNone then 0 else 1;
      w.maxX - adj - cursorWidth
    }

    /** `set_simple_text`, given the lines `foldstring` produced: groups them
        into entries, keeps them flat in `outputStrings`, and resets the
        cursor. The scroll offset is left for the next `draw`. */
    method SetSimpleText(folded: seq<string>)
      modifies this`cursorPos, this`inputDataset, this`outputStrings
      ensures cursorPos == 0
      ensures inputDataset == Ingestion.Ingest(folded)
      ensures outputStrings == folded && Ingestion.Flatten(inputDataset) == outputStrings
      ensures |inputDataset| <= |outputStrings|
      ensures folded == [] || folded[|folded| - 1] == "" ==> Ingestion.SumCounts(inputDataset) == |outputStrings|
      ensures folded != [] && folded[|folded| - 1] == "" ==> forall menuScroll: bool :: Drawable(menuScroll)
    {
      cursorPos := 0;
      inputDataset := [];
      outputStrings := [];
      var thisEntry := EmptyEntry;
      var i: nat := 0;
      for n := 0 to |folded|
        invariant cursorPos == 0
        invariant Ingestion.LoopState(inputDataset, thisEntry, i) == Ingestion.Run(folded[..n])
        invariant outputStrings == folded[..n]
      {
        ghost var before := Ingestion.LoopState(inputDataset, thisEntry, i);
        var k := folded[n];
        thisEntry := thisEntry.AddText(k);
        outputStrings := outputStrings + [k];
        if k == "" {
          var fire := i % 4 != 0;
          i := i + 1;
          if fire {
            thisEntry := thisEntry.(flags := EntryDarkened);
            i := 0;
          }
          thisEntry := thisEntry.(foldedLineCount := |thisEntry.content|);
          inputDataset := inputDataset + [thisEntry];
          thisEntry := thisEntry.(content := []);
        }
        assert Ingestion.LoopState(inputDataset, thisEntry, i) == Ingestion.Step(before, k);
        assert folded[..n + 1] == folded[..n] + [k];
        assert Ingestion.Run(folded[..n + 1]) == Ingestion.Step(Ingestion.Run(folded[..n]), k) by {
          assert folded[..n + 1][..n] == folded[..n];
        }
      }
      assert folded[..|folded|] == folded;
      if thisEntry.content != [] {
        inputDataset := inputDataset + [thisEntry];
      }
      assert Ingestion.Flatten(inputDataset) == folded
          && (folded != [] && folded[|folded| - 1] == "" ==>
                inputDataset != [] && Ingestion.SumCounts(inputDataset) == |folded|) by {
        Ingestion.IngestFlattens(folded);
        Ingestion.IngestNonEmpty(folded);
        Ingestion.IngestSumCounts(folded);
      }
      Ingestion.IngestSize(folded);
      if folded != [] && folded[|folded| - 1] == "" {
        forall menuScroll: bool
          ensures Drawable(menuScroll)
        {
          DrawableWhenCountsCover(menuScroll);
        }
      }
    }

    /** `cursor_up`: moves the cursor up `lines` entries, stopping at 0. */
    method CursorUp(lines: SizeT := 1)
      modifies this`cursorPos
      ensures cursorPos <= old(cursorPos)
      ensures cursorPos == old(cursorPos) - lines || (old(cursorPos) < lines && cursorPos == 0)
    {
      if cursorPos >= lines {
        cursorPos := cursorPos - lines;
      } else {
        cursorPos := 0;
      }
    }

    /** `cursor_down`: moves the cursor down `lines` entries, stopping at the
        last one. The arithmetic is on `size_t`: with no entries `size() - 1`
        wraps to the largest value, so the cursor moves without a bound. */
    method CursorDown(lines: SizeT := 1)
      requires |inputDataset| <= SizeTModulus
      modifies this`cursorPos
      ensures inputDataset != [] ==> cursorPos < |inputDataset|
      ensures inputDataset != [] && old(cursorPos) + lines < SizeTModulus ==>
                cursorPos == Render.Min(old(cursorPos) + lines, |inputDataset| - 1)
      ensures inputDataset == [] ==> cursorPos == (old(cursorPos) + lines) % SizeTModulus
    {
      var last := (|inputDataset| + SizeTModulus - 1) % SizeTModulus;
      var moved := (cursorPos + lines) % SizeTModulus;
      if moved < last {
        cursorPos := moved;
      } else {
        cursorPos := last;
      }
    }

    /** `page_up`: moves the offset up one window height. The lower bound in
        the source is taken on `size_t` and never applies, so the offset can
        become negative; `draw` clamps it again. */
    method PageUp()
      modifies this`cursorOffset
      ensures cursorOffset == old(cursorOffset) - w.maxY
      ensures old(cursorOffset) >= w.maxY ==> cursorOffset >= 0
    {
      cursorOffset := cursorOffset - w.maxY;
    }

    /** `page_down`: moves the offset down one window height, but not past
        `max_offset()`. The sum is compared as `size_t`, where a negative sum
        is larger than any line count, so it too yields `max_offset()`. */
    method PageDown()
      modifies this`cursorOffset
      ensures 0 <= cursorOffset <= MaxOffset()
      ensures cursorOffset == old(cursorOffset) + w.maxY || cursorOffset == MaxOffset()
      ensures old(cursorOffset) + w.maxY >= 0 ==> cursorOffset <= old(cursorOffset) + w.maxY
      ensures old(cursorOffset) + w.maxY < 0 ==> cursorOffset == MaxOffset()
    {
      var sum := cursorOffset + w.maxY;
      var limit := MaxOffset();
      if sum < 0 || limit < sum {
        cursorOffset := limit;
      } else {
        cursorOffset := sum;
      }
    }

    /** `set_cursor_hidden`: no cursor, and no width kept for decoration. */
    method SetCursorHidden()
      modifies this`cursorStyle, this`cursorText
      ensures cursorStyle == CursorHidden && cursorText == ("", "")
      ensures forall u: string -> int | u("") == 0 ::
                TextWidth(u) == w.maxX - (if scrollbarPos == ScrollbarNone then 0 else 1)
    {
      cursorStyle := CursorHidden;
      cursorText := ("", "");
    }

    /** `set_cursor_highlighted`: the cursor's rows in active colours, and no
        width kept for decoration. */
    method SetCursorHighlighted()
      modifies this`cursorStyle, this`cursorText
      ensures cursorStyle == CursorHighlighted && cursorText == ("", "")
      ensures forall u: string -> int | u("") == 0 ::
                TextWidth(u) == w.maxX - (if scrollbarPos == ScrollbarNone then 0 else 1)
    {
      cursorStyle := CursorHighlighted;
      cursorText := ("", "");
    }

    /** `set_cursor_bracketed`: the cursor's rows between `prefix` and
        `suffix`, printed in `color` (white unless given). */
    method SetCursorBracketed(prefix: string, suffix: string, color: Color := CWhite)
      modifies this`cursorStyle, this`cursorText, this`cursorColor
      ensures cursorStyle == CursorBracketed && cursorText == (prefix, suffix) && cursorColor == color
      ensures forall u: string -> int ::
                TextWidth(u) == w.maxX - (if scrollbarPos == ScrollbarNone then 0 else 1) - u(prefix) - u(suffix)
    {
      cursorStyle := CursorBracketed;
      cursorText := (prefix, suffix);
      cursorColor := color;
    }

    /** `draw`, without the curses calls: recomputes the scroll offset for
        the cursor's entry, decides between scrollbar and border, and returns
        the rows it paints, one per visible line, at most one window high. */
    method Draw(baseColor: Color, menuScroll: bool) returns (scrollbar: bool, rows: seq<Render.PaintedRow>)
      requires Drawable(menuScroll)
      modifies this`cursorOffset
      ensures cursorOffset == Scroll.StartPos(old(cursorOffset), Render.Offsets(inputDataset)[cursorPos],
                                              w.maxY, |outputStrings|,
                                              inputDataset[cursorPos].foldedLineCount, menuScroll)
      ensures 0 <= cursorOffset <= |outputStrings|
      ensures |outputStrings| <= w.maxY ==> cursorOffset == 0
      ensures (Render.Offsets(inputDataset)[cursorPos] + inputDataset[cursorPos].foldedLineCount <= |outputStrings|
               && (menuScroll || old(cursorOffset) <= MaxOffset())) ==> cursorOffset <= MaxOffset()
      ensures scrollbar == (MaxOffset() > 0)
      ensures |rows| == Render.Min(w.maxY, |outputStrings| - cursorOffset)
      ensures forall j | 0 <= j < |rows| ::
                Render.PaintsLine(rows[j], j, cursorOffset, Render.Offsets(inputDataset), inputDataset,
                                  cursorPos, cursorStyle, outputStrings)
    {
      var start;
      start, scrollbar, rows := Render.DrawView(inputDataset, outputStrings, w.maxY, cursorOffset,
                                                cursorPos, cursorStyle, menuScroll);
      cursorOffset := start;
    }
  }
}
