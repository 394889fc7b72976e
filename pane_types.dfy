/** Value types shared by the text pane: the enums of `text_pane`, the
    `entry_flags` bit set, an abstract colour palette and the
    `text_pane_entry` record that the pane copies into its entry list. */
module PaneTypes {

  /** `size_t` on a 64-bit target: values are kept modulo SizeTModulus. */
  const SizeTModulus: int := 0x1_0000_0000_0000_0000
  type SizeT = x: int | 0 <= x < SizeTModulus

  datatype CursorStyle = CursorHidden | CursorHighlighted | CursorBracketed

  datatype ScrollbarPos = ScrollbarLeft | ScrollbarRight | ScrollbarNone

  /** `nc_color` is opaque to the pane: it only names a few palette entries
      and passes caller-supplied colours through. `H*` are the "active"
      (highlighted-background) variants. */
  datatype Color = CWhite | HWhite | CDarkGray | HDarkGray | CYellow | HYellow | Custom(code: int)
  {
    predicate IsActive() { this == HWhite || this == HDarkGray || this == HYellow }
  }

  /** The `entry_flags` enum, a bit set; eight bits hold every enumerator. */
  type Flags = bv8

  const EntryDefault: Flags := 0
  const EntrySkipped: Flags := 1 << 0
  const EntryDarkened: Flags := 1 << 1
  const EntryHighlighted: Flags := 1 << 2
  const EntryBracketed: Flags := 1 << 3

  /** The four named flags, each a single bit. */
  predicate IsEntryFlag(f: Flags) {
    f == EntrySkipped || f == EntryDarkened || f == EntryHighlighted || f == EntryBracketed
  }

  /** The flag constants are distinct single bits and the default has none set. */
  lemma FlagBitsDistinct()
    ensures EntryDefault == 0
    ensures forall f: Flags | IsEntryFlag(f) :: f != 0 && f & (f - 1) == 0
    ensures forall f: Flags, g: Flags | IsEntryFlag(f) && IsEntryFlag(g) && f != g :: f & g == 0
  {
  }

  /** One `text_pane_entry`: its folded lines, its flags and the cached
      `folded_line_count_`, which only some operations keep in step with
      `content_`. */
  datatype Entry = Entry(content: seq<string>, flags: Flags, foldedLineCount: nat)
  {
    /** `has_flag`: some bit of `f` is set in the flags. */
    predicate HasFlag(f: Flags) { flags & f != 0 }

    /** `set_flag`: OR one flag in; no other named flag changes. */
    function SetFlag(f: Flags): (e: Entry)
      requires IsEntryFlag(f)
      ensures e.content == content && e.foldedLineCount == foldedLineCount
      ensures e.HasFlag(f)
      ensures forall g: Flags | IsEntryFlag(g) && g != f :: e.HasFlag(g) == HasFlag(g)
    {
      this.(flags := flags | f)
    }

    /** `clear_text`: drops the lines and resets the count, so the entry is
        consistent again; its flags stay. */
    function ClearText(): (e: Entry)
      ensures e.content == [] && e.Consistent() && e.flags == flags
    {
      this.(content := [], foldedLineCount := 0)
    }

    /** `clear_flags`: back to `entry_default`, so no named flag is set. */
    function ClearFlags(): (e: Entry)
      ensures e.content == content && e.foldedLineCount == foldedLineCount
      ensures forall g: Flags | IsEntryFlag(g) :: !e.HasFlag(g)
    {
      this.(flags := EntryDefault)
    }

    /** `add_text`: appends one line but leaves the cached count stale. */
    function AddText(line: string): (e: Entry)
      ensures e.content == content + [line] && e.flags == flags
      ensures e.foldedLineCount == foldedLineCount
      ensures Consistent() ==> !e.Consistent()
    {
      this.(content := content + [line])
    }

    /** The cached count agrees with the lines held. */
    predicate Consistent() { foldedLineCount == |content| }
  }

  /** A fresh `text_pane_entry`: no lines, default flags, a zero count. */
  const EmptyEntry: Entry := Entry([], EntryDefault, 0)
}
