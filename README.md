# text_pane: a verified model of a scrolling text pane

`text_pane` is a scrolling view for a curses window. It takes text that was
already folded into lines and groups the lines into *entries*. A blank line
ends an entry and stays in it as the entry's last line. The pane keeps a
cursor, which is an entry index, and a scroll offset, which is the first
flattened line shown. On `draw` it works out the offset for the cursor's
entry, picks a scrollbar or a plain border, and paints the visible lines.
Each line gets a colour from its entry's flags and from the cursor style.

The model has five modules:

- `PaneTypes` (`pane_types.dfy`) holds the enums, the `entry_flags` bit set
  and an abstract colour palette. It also holds `Entry`, the
  `text_pane_entry` record. The pane copies that record into a vector by
  value, so the model makes it a datatype, and its member functions return
  the updated entry.
- `Ingestion` (`ingestion.dfy`) specifies `set_simple_text` as a function:
  `Step` is one loop iteration, `Run` is the loop, and `Ingest` gives the
  resulting entries. The lemmas prove what that grouping guarantees.
- `Scroll` (`scroll.dfy`) holds `calc_start_pos`. `StartPos` is its
  specification, `CalcStartPos` is the method written in the source's
  step-by-step form, and the lemmas cover both scroll policies.
- `Render` (`render.dfy`) holds what `draw` computes: the prefix-sum index
  `entry_offsets`, `std::upper_bound`, the colour rule, the rows it paints,
  and `DrawView`, the body of `draw` on the pane's state as values.
- `Windowing` (`windowing.dfy`) has the `Window` and `TextPane` classes. The
  pane's fields are the source's state. Its methods change only the fields
  they name in `modifies`.

The model reproduces these behaviours of the code as written:

- `page_up` does not clamp at 0. Its `std::max<size_t>(0, …)` can never
  apply, so the offset can go negative until the next `draw`.
- In `page_down`, a negative offset plus the height is a huge `size_t`, so
  the result is `max_offset()`.
- On an empty pane, `cursor_down` does not clamp, because `size() - 1` wraps.
- The darkening counter only goes 0, 1, 0, … and fires on every second blank
  line, not every fourth. The flag is never cleared, so every entry from the
  second one on is darkened. The exception is a trailing entry after a
  single blank line.
- The trailing entry, the one with no closing blank line, keeps a stale line
  count. So the counts add up to the number of lines only when that stale
  count happens to be right, for example when the input ends with a blank
  line. `draw` looks up an entry only for the lines it paints, so it stays
  within bounds as long as the counts cover those lines, and `Draw` requires
  exactly that. Counts short of the line count are often fine: for
  `a <blank> b c d` they add up to 4 over 5 lines, yet a 3-row view from the
  top is drawn (`Render.ShortCountsStillDrawn`). When a too-large stale count belongs
  to the cursor's entry, `draw` can scroll past `max_offset()` and paint no
  row at all (`Render.StaleCountScrollsPastEnd`). The promise that the offset
  stays within `max_offset()` is therefore stated only for a cursor entry that
  lies inside the lines.
- In paging mode, a window of one or two rows cannot show a cursor line
  above the viewport. The start moves to two lines above the cursor line,
  which leaves it off screen (`Scroll.PagingShortWindowHidesCursor`).
- In centred mode, an entry as tall as an even-height window (or taller)
  gets centred past its first line whenever the centring needs no clamping
  (`Scroll.CentredHidesTallEntryTop`).

## Model

| member | source | states |
|---|---|---|
| `PaneTypes.FlagBitsDistinct` | src/windowing.h:62-68 | `ENTRY_DEFAULT` is 0, and the four flags are distinct single bits |
| `PaneTypes.Entry.SetFlag` | src/windowing.cpp:59-62 | setting a flag sets it and leaves every other named flag, the lines and the count as they were |
| `PaneTypes.Entry.ClearText` | src/windowing.cpp:64-68 | no lines remain, the count is consistent (0), and the flags are kept |
| `PaneTypes.Entry.ClearFlags` | src/windowing.cpp:70-73 | no named flag remains set, and the lines and count are kept |
| `PaneTypes.Entry.AddText` | src/windowing.cpp:75-79 | the line is appended but the cached count is not updated, so a consistent entry becomes inconsistent |
| `Ingestion.RunShaped` | src/windowing.cpp:88-102 | the loop invariant of `set_simple_text`: entries so far plus the pending lines equal the input read so far; one closed entry per blank line, each ending in its only blank line with a correct count; the counter equals blanks mod 2; pending flags and stale count as derived |
| `Ingestion.DarkeningFiresOnEvenBlank` | src/windowing.cpp:89-97 | the counter stays below 2, and the `i++ % 4` test fires exactly on the 2nd, 4th, … blank line |
| `Ingestion.IngestFlattens` | src/windowing.cpp:81-105 | all entries' lines, concatenated, are exactly the folded input in order |
| `Ingestion.IngestNonEmpty` | src/windowing.cpp:90-105 | there are entries iff there is input, and no entry is empty |
| `Ingestion.IngestEntriesClosed` | src/windowing.cpp:90-102 | a blank line only ends an entry, and every entry but the last ends in exactly one blank line |
| `Ingestion.IngestLastEntry` | src/windowing.cpp:90-105 | the last entry ends in a blank line iff the input does; entry count = blanks + 1 for an unterminated tail |
| `Ingestion.BlanksAtMost` | src/windowing.cpp:90-100 | the number of blank lines, each of which closes an entry, is at most the number of lines |
| `Ingestion.IngestSize` | src/windowing.cpp:81-105 | `set_simple_text` makes at most one entry per line |
| `Ingestion.IngestCounts` | src/windowing.cpp:98-104 | blank-terminated entries cache their true line count; a trailing entry carries the previous entry's count, or 0 |
| `Ingestion.IngestDarkening` | src/windowing.cpp:88-101 | entry j is darkened iff j ≥ 1 and the input has at least two blank lines; otherwise it has default flags |
| `Ingestion.IngestSumCounts` | src/windowing.cpp:98-105 | the counts sum to the number of lines iff the last entry's count is right, which holds whenever the input is empty or ends blank |
| `Ingestion.StaleTrailingCount` | src/windowing.cpp:103-104 | the single line "a" gives one entry with count 0, so the counts do not add up |
| `Windowing.TextPane.constructor` | src/windowing.h:71-110 | binds the window, cursor colour white, decoration `(" ", " ")`, no entries, offset, cursor and count 0, hidden cursor, scrollbar left, no cursor wrap; the text width is then the window width less the scrollbar column and two widths of `" "` |
| `Windowing.TextPane.SetSimpleText` | src/windowing.cpp:81-108 | cursor reset to 0; entries are `Ingest(folded)`; flat lines are the input and the entries' concatenation; no more entries than lines; input that is empty or ends blank makes the counts add up, and input ending blank leaves a pane drawable in either scroll mode |
| `Windowing.TextPane.CursorUp` | src/windowing.cpp:110-117 | the cursor never rises; it drops by `lines`, or goes to 0 when it is smaller |
| `Windowing.TextPane.CursorDown` | src/windowing.cpp:119-126 | on a non-empty pane the cursor stays below the entry count and equals min(c + n, size - 1) without overflow; on an empty pane it moves by n modulo 2^64 |
| `Windowing.TextPane.PageUp` | src/windowing.cpp:128-131 | the offset drops by exactly the window height, unclamped; it stays ≥ 0 when it was at least the height |
| `Windowing.TextPane.PageDown` | src/windowing.cpp:133-136 | the offset ends in [0, max_offset()], either one height further or at max_offset(); a negative sum gives max_offset() |
| `Windowing.TextPane.MaxOffset` | src/windowing.cpp:348-361 | max(0, lines - height): 0 exactly when every line fits; otherwise lines minus height |
| `Windowing.TextPane.TextWidth` | src/windowing.cpp:340-346 | text width plus both decoration widths plus the scrollbar column (absent only for no scrollbar) is the window width; what the decoration reserves at each state is stated by the constructor and the cursor setters |
| `Windowing.TextPane.SetCursorHidden` | src/windowing.cpp:320-324 | hidden style, empty decoration, so the text width gives back the decoration's columns: the window width less only the scrollbar column, for any width measure that gives `""` width 0 |
| `Windowing.TextPane.SetCursorHighlighted` | src/windowing.cpp:326-330 | highlighted style, empty decoration, so the text width is the window width less only the scrollbar column, for any width measure that gives `""` width 0 |
| `Windowing.TextPane.SetCursorBracketed` | src/windowing.cpp:332-338 | bracketed style with the given prefix, suffix and colour (white by default, src/windowing.h:81-82); the text width reserves the widths of the prefix and the suffix |
| `Scroll.TruncHalf` | src/windowing.cpp:148 | C++ division by 2, which rounds toward zero for negative operands too |
| `Scroll.CalcStartPos` | src/windowing.cpp:139-167 | equals `StartPos`; the result lies in [0, N] and is 0 when all N lines fit |
| `Scroll.StartPosBounds` | src/windowing.cpp:145-166 | for N ≥ 0 the start is in [0, N], and 0 when N ≤ height |
| `Scroll.CentredStartPos` | src/windowing.cpp:147-153 | centred mode: `cur - (h-1)/2 + es/2` (C++ division) clamped into [0, N - h], so no rows past the end |
| `Scroll.PagingSticky` | src/windowing.cpp:154-160 | paging mode keeps an in-range start that shows the cursor line with room for its entry |
| `Scroll.PagingUp` | src/windowing.cpp:155-156 | paging mode, cursor above the viewport: start is max(0, cur - 2) |
| `Scroll.PagingDown` | src/windowing.cpp:157-158 | paging mode, entry reaching past the bottom: start is cur - (h - es) |
| `Scroll.PagingShowsCursor` | src/windowing.cpp:154-166 | paging mode with h ≥ 3 and an entry that fits shows the cursor line, from any previous start |
| `Scroll.CentredShowsCursor` | src/windowing.cpp:147-153 | centred mode shows the cursor line when its entry is shorter than the viewport |
| `Scroll.CentredHidesTallEntryTop` | src/windowing.cpp:148 | in centred mode, with an unclamped target and an entry taller than the window (or as tall, at an even height), the start is cur + span/2 - (height-1)/2, below the entry's first line |
| `Scroll.PagingShortWindowHidesCursor` | src/windowing.cpp:155-156 | in paging mode with a window of at most two rows, a cursor line above the viewport moves the start to cur - 2, and the cursor line stays below the shown rows |
| `Scroll.StartPosWithinMaxOffset` | src/windowing.cpp:145-166 | from a start within max(0, N - h) (any start when centred), the new start stays within it when the cursor's entry lies inside the lines |
| `Render.Offsets` | src/windowing.cpp:179-184 | `entry_offsets` has one more element than there are entries, starts at 0 and ends at the sum of counts |
| `Render.OffsetsStep` | src/windowing.cpp:179-184 | consecutive offsets differ by exactly the entry's cached count |
| `Render.OffsetsAscending` | src/windowing.cpp:179-184 | the offsets never decrease, so `upper_bound` may search them |
| `Render.EntryWithinLines` | src/windowing.cpp:179-184 | each entry's line range starts at 0 or later and ends by the sum of the cached counts, which a stale count can put past the number of lines |
| `Render.EntryOffsets` | src/windowing.cpp:179-184 | the partial-sum loop builds exactly `Offsets` |
| `Render.UpperBound` | src/windowing.cpp:233-234 | on sorted input, the first index whose value exceeds x: all before are ≤ x, all from it are > x |
| `Render.OwnerUnique` | src/windowing.cpp:233-234 | at most one entry owns a line under the offset index |
| `Render.OwnerHoldsLine` | src/windowing.cpp:233-236 | with correct counts, the owning entry holds the flattened line at its offset within the entry |
| `Render.RowColor` | src/windowing.cpp:237-257 | darkened beats highlighted beats white; the active variant exactly on the cursor's entry in highlighted style; the base colour plays no part |
| `Render.PaintRows` | src/windowing.cpp:194-267 | whenever the counts cover every line it paints, min(height, N - start) rows; row j shows line start + j and its text, with the entry owning the line, that entry's colour, and brackets iff it is the cursor's entry in bracketed style |
| `Render.PaintedTextBelongsToEntry` | src/windowing.cpp:263-264 | with correct counts, a painted row's text is its entry's line at the matching place |
| `Render.MaxStart` | src/windowing.cpp:353-361 | `max_offset()` on values: max(0, N - h), that is, never negative, 0 exactly when every line fits, and otherwise exactly N - h |
| `Render.DrawView` | src/windowing.cpp:169-318 | the body of `draw` on values, for counts that cover every line the new viewport paints: offset = `StartPos` for the cursor entry's first line and count, in [0, N], 0 when all fits, kept within `MaxStart` when the cursor's entry lies inside the lines; scrollbar iff `MaxStart` > 0; the rows as `PaintRows` states |
| `Render.StaleCountScrollsPastEnd` | src/windowing.cpp:190-196 | for the lines `a b c <blank> d`, the counts are 4 and 4 over 5 lines; with the cursor on the trailing entry, a 3-row paging viewport from line 0 jumps to line 5, past `max_offset()` = 2, and paints no row |
| `Render.ShortCountsStillDrawn` | src/windowing.cpp:227-236 | for the lines `a <blank> b c d`, the counts are 2 and 2 over 5 lines; with the cursor on the first entry, a 3-row paging view from line 0 stays at 0 and every line it paints has an entry, so `Draw` accepts the state |
| `Windowing.TextPane.DrawableWhenCountsCover` | src/windowing.cpp:190-236 | a pane with entries, a cursor among them, lines, and counts adding up to at least the line count can be drawn from any offset, in either scroll mode |
| `Windowing.TextPane.Draw` | src/windowing.cpp:169-318 | for counts that cover every line the new viewport paints, stores the offset `DrawView` computes and changes nothing else; when the cursor's entry lies inside the lines, the offset is within max_offset() whenever it was, or in centred mode; scrollbar iff max_offset() > 0; the rows as `PaintRows` states, for any base colour |

## Left out

- Curses output is not modelled: `werase`, `wnoutrefresh`, `print_colored_text`, `mvwputch` and the `scrollbar()` builder. `draw` returns the scrollbar-or-border decision and the painted rows.
- The column positions in `draw` (`left_margin`, `right_margin`) are not modelled. They depend on the external `utf8_width` and, for `right_margin`, on the window width. A row's bracket flag says whether the prefix and suffix are printed.
- `foldstring` is external: `SetSimpleText` takes the folded lines, not the text and the width. `utf8_width` is external too: `TextWidth` takes it as a function parameter.
- The `MENU_SCROLL` option lookup is global state. It is a `menuScroll` parameter instead.
- Colours are an abstract datatype. Only the palette entries the pane names are distinguished.
- `set_unwrapped_text`, `set_scrollbar_pos`, `set_wrap_cursor`, `set_cursor_pos` and `get_cursor_pos` are declared in src/windowing.h:75-84 but have no body, so they are not modelled. Nothing in the model changes `scrollbarPos` or `wrapCursor` after construction.
- `get_content` (src/windowing.cpp:47-50) only returns `content_`. It is the datatype field `content`.
- `has_flag` (src/windowing.cpp:42-45) is the predicate `Entry.HasFlag`. Its meaning is stated through `SetFlag` and `ClearFlags`.
- `num_lines` is the function `NumLines`, used by `MaxOffset`.
- The header's `input_entries_` vector is never used by the implementation. It and the header's other names (`entry`, `output_dataset_`, `offset_`) are replaced by the implementation's names.
- The code inside comments is not modelled.
- A pane where `draw` would index out of bounds is not drawn. That happens with no entries or no lines, and when `upper_bound` finds no entry for a line that gets painted. Lines past the window are skipped before any lookup. So `Draw` requires entries, a cursor among them, non-empty lines, and counts that reach past every line the new viewport paints. Every other state is drawn, including counts short of the line count whose missing lines stay off screen, and the scroll past `max_offset()` that a too-large stale count causes.
- `int` is unbounded in the model: 32-bit overflow of `cursor_offset_` after many `page_up` calls is not modelled, and neither are the `size_t`-to-`int` conversions of line counts.
- Windowing.TextPane.CursorDown: on a non-empty pane where `cursor_pos_ + lines` overflows 64 bits, the contract states only that the cursor stays below the entry count, not its exact wrapped value. It also requires the entry count to fit in a `size_t`.
