/** `calc_start_pos`: where the viewport starts, given the line the cursor's
    entry begins at. Two policies, chosen by the `MENU_SCROLL` option, which
    is passed in as `menuScroll`. */
module Scroll {

  /** C++ `a / 2` on `int`: rounds toward zero (Dafny's `/` rounds down). */
  function TruncHalf(a: int): (q: int)
    ensures a >= 0 ==> 0 <= a - 2 * q <= 1
    ensures a < 0 ==> 0 <= 2 * q - a <= 1
  {
    if a >= 0 then a / 2 else -((-a) / 2)
  }

  /** The last two statements of `calc_start_pos`: negative becomes 0, then
      anything past `total` becomes `total`. */
  function ClampTo(x: int, total: int): int
  {
    var y := if x < 0 then 0 else x;
    if y > total then total else y
  }

  /** The centred policy: the cursor line goes to the middle row, moved down
      by half the cursor entry's span, and the viewport is kept inside
      `[0, total - height]`. */
  function CentredStart(cur: int, height: int, total: int, span: int): int
  {
    var c := cur - TruncHalf(height - 1) + TruncHalf(span);
    if c < 0 then 0 else if c + height > total then total - height else c
  }

  /** The new start line, by cases: everything fits; centred; paging, where
      the viewport jumps to two lines above a cursor above it, follows a
      cursor whose entry would run off the bottom, and otherwise stays. */
  function StartPos(start: int, cur: int, height: int, total: int, span: int, menuScroll: bool): int
  {
    var raw :=
      if total <= height then 0
      else if menuScroll then CentredStart(cur, height, total, span)
      else if cur < start then cur - 2
      else if cur >= start + (height - span) then cur - (height - span)
      else start;
    ClampTo(raw, total)
  }

  /** `calc_start_pos(iStartPos, iCurrentLine, iContentHeight, iNumEntries,
      entrysize)`, with the reference parameter as input and result. */
  method CalcStartPos(startPos: int, currentLine: int, contentHeight: int, numEntries: int,
                      entrySize: int, menuScroll: bool) returns (r: int)
    ensures r == StartPos(startPos, currentLine, contentHeight, numEntries, entrySize, menuScroll)
    ensures 0 <= numEntries ==> 0 <= r <= numEntries
    ensures 0 <= numEntries <= contentHeight ==> r == 0
  {
    r := startPos;
    if numEntries <= contentHeight {
      r := 0;
    } else if menuScroll {
      r := currentLine - TruncHalf(contentHeight - 1) + TruncHalf(entrySize);
      if r < 0 {
        r := 0;
      } else if r + contentHeight > numEntries {
        r := numEntries - contentHeight;
      }
    } else {
      if currentLine < r {
        r := currentLine - 2;
      } else if currentLine >= r + (contentHeight - entrySize) {
        r := currentLine - (contentHeight - entrySize);
      }
    }
    if r < 0 {
      r := 0;
    }
    if r > numEntries {
      r := numEntries;
    }
  }

  /** The start line always lies in `[0, total]`, and is 0 when every line
      fits in the viewport. */
  lemma StartPosBounds(start: int, cur: int, height: int, total: int, span: int, menuScroll: bool)
    requires 0 <= total
    ensures 0 <= StartPos(start, cur, height, total, span, menuScroll) <= total
    ensures total <= height ==> StartPos(start, cur, height, total, span, menuScroll) == 0
  {
  }

  /** Once the viewport is within `max(0, total - height)`, `draw` keeps it
      there when the cursor's entry lies inside the lines; the centred policy
      keeps it there from any start. */
  lemma StartPosWithinMaxOffset(start: int, cur: int, height: int, total: int, span: int, menuScroll: bool)
    requires 0 <= height && 0 <= total && 0 <= cur && 0 <= span && cur + span <= total
    requires menuScroll || start <= total - height || start <= 0
    ensures StartPos(start, cur, height, total, span, menuScroll) <= if total <= height then 0 else total - height
  {
    if total > height && !menuScroll {
      if cur < start {
        assert cur - 2 < total - height;
      } else if cur >= start + (height - span) {
        assert cur - (height - span) <= total - height;
      }
    }
  }

  /** Centred mode: the centring target clamped into `[0, total - height]`,
      so the viewport never shows rows past the last line. */
  lemma CentredStartPos(start: int, cur: int, height: int, total: int, span: int)
    requires 0 <= height < total
    ensures var r := StartPos(start, cur, height, total, span, true);
      var target := cur - TruncHalf(height - 1) + TruncHalf(span);
      && r == (if target < 0 then 0 else if target > total - height then total - height else target)
      && 0 <= r && r + height <= total
  {
  }

  /** Paging mode is sticky: a start already in range that shows the cursor
      line with room for its entry is kept. */
  lemma PagingSticky(start: int, cur: int, height: int, total: int, span: int)
    requires height < total && 0 <= start <= total
    requires start <= cur < start + (height - span)
    ensures StartPos(start, cur, height, total, span, false) == start
  {
  }

  /** Paging mode, cursor above the viewport: jump to two lines above it. */
  lemma PagingUp(start: int, cur: int, height: int, total: int, span: int)
    requires 0 <= total && height < total && cur < start && cur <= total
    ensures StartPos(start, cur, height, total, span, false) == if cur < 2 then 0 else cur - 2
  {
  }

  /** Paging mode, cursor entry reaching past the bottom row: scroll so that
      the entry ends on the last row. */
  lemma PagingDown(start: int, cur: int, height: int, total: int, span: int)
    requires 0 <= height < total && span <= height && 0 <= cur < total
    requires 0 <= start && start + (height - span) <= cur
    ensures StartPos(start, cur, height, total, span, false) == cur - (height - span)
  {
  }

  /** Paging mode keeps the cursor line on screen, for any previous start,
      once the viewport has three rows and the entry fits in it. */
  lemma PagingShowsCursor(start: int, cur: int, height: int, total: int, span: int)
    requires 3 <= height < total && 1 <= span <= height && 0 <= cur < total
    ensures var r := StartPos(start, cur, height, total, span, false);
      r <= cur < r + height
  {
    var r := StartPos(start, cur, height, total, span, false);
    if cur < start {
      assert r == if cur < 2 then 0 else cur - 2;
    } else if cur >= start + (height - span) {
      assert r == if cur < height - span then 0 else cur - (height - span);
    } else {
      assert r == if start < 0 then 0 else start;
    }
  }

  /** Centred mode keeps the cursor line on screen when its entry is shorter
      than the viewport. (A taller entry is centred past its first line.) */
  lemma CentredShowsCursor(start: int, cur: int, height: int, total: int, span: int)
    requires 1 <= height < total && 0 <= span < height && 0 <= cur < total
    ensures var r := StartPos(start, cur, height, total, span, true);
      r <= cur < r + height
  {
    var h := TruncHalf(height - 1);
    var s := TruncHalf(span);
    assert s <= h;
  }

  /** A tall entry in centred mode: when the centring target needs no
      clamping and the cursor's entry is at least as tall as the viewport
      (strictly taller, or as tall with an even height), the viewport starts
      below the entry's first line, so that line is not shown. */
  lemma CentredHidesTallEntryTop(start: int, cur: int, height: int, total: int, span: int)
    requires 1 <= height < total && 0 <= cur
    requires height < span || (height == span && height % 2 == 0)
    requires cur - (height - 1) / 2 + span / 2 + height <= total
    ensures StartPos(start, cur, height, total, span, true) == cur + span / 2 - (height - 1) / 2
    ensures cur < StartPos(start, cur, height, total, span, true)
  {
    assert TruncHalf(height - 1) == (height - 1) / 2 && TruncHalf(span) == span / 2;
  }

  /** Paging mode with a window of at most two rows: a cursor line above the
      viewport moves the start to two lines above it, so the cursor line is
      still not shown. */
  lemma PagingShortWindowHidesCursor(start: int, cur: int, height: int, total: int, span: int)
    requires 0 <= height <= 2 && height < total
    requires 2 <= cur < start && cur <= total
    ensures StartPos(start, cur, height, total, span, false) == cur - 2
    ensures StartPos(start, cur, height, total, span, false) + height <= cur
  {
  }
}
