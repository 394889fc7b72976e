/** The grouping that `text_pane::set_simple_text` performs on the folded
    lines, as a specification: the loop state after each line, the entries
    that result, and what is proved about them. */
module Ingestion {
  import opened PaneTypes

  /** The state of the loop in `set_simple_text`: the entries pushed so far
      (`input_dataset_`), the reused `thisentry`, and the counter `i`. */
  datatype LoopState = LoopState(entries: seq<Entry>, pending: Entry, counter: nat)

  const Initial: LoopState := LoopState([], EmptyEntry, 0)

  /** The pending entry as a blank line closes it: darkened when the
      counter test `i++ % 4` fires, and its count refreshed. */
  function Closed(pending: Entry, counter: nat): Entry
  {
    var flagged := if counter % 4 != 0 then pending.(flags := EntryDarkened) else pending;
    flagged.(foldedLineCount := |flagged.content|)
  }

  /** One iteration on the folded line `line`. A blank line closes the
      pending entry, which is pushed; only its lines are cleared, so its
      flags and its count carry over to the next entry. The counter restarts
      at 0 when the test fires. */
  function Step(s: LoopState, line: string): LoopState
  {
    var pending := s.pending.AddText(line);
    if line != "" then s.(pending := pending)
    else
      var done := Closed(pending, s.counter);
      LoopState(s.entries + [done], done.(content := []), if s.counter % 4 != 0 then 0 else s.counter + 1)
  }

  /** The loop state after the lines `lines`, in order. */
  function Run(lines: seq<string>): LoopState
  {
    if lines == [] then Initial else Step(Run(lines[..|lines| - 1]), lines[|lines| - 1])
  }

  /** The entries `set_simple_text` leaves: those closed by a blank line, then
      the unterminated rest, if it holds any line. */
  function Ingest(lines: seq<string>): seq<Entry>
  {
    var s := Run(lines);
    if s.pending.content != [] then s.entries + [s.pending] else s.entries
  }

  /** All entries' lines, in order. */
  function Flatten(es: seq<Entry>): seq<string>
  {
    if es == [] then [] else Flatten(es[..|es| - 1]) + es[|es| - 1].content
  }

  /** The sum of the entries' cached `folded_line_count_`. */
  function SumCounts(es: seq<Entry>): nat
  {
    if es == [] then 0 else SumCounts(es[..|es| - 1]) + es[|es| - 1].foldedLineCount
  }

  /** How many lines are blank. */
  function Blanks(lines: seq<string>): nat
  {
    if lines == [] then 0
    else Blanks(lines[..|lines| - 1]) + (if lines[|lines| - 1] == "" then 1 else 0)
  }

  predicate NoBlank(c: seq<string>)
  {
    forall p | 0 <= p < |c| :: c[p] != ""
  }

  /** Exactly one blank line, and it is the last one. */
  predicate BlankTerminated(c: seq<string>)
  {
    c != [] && c[|c| - 1] == "" && NoBlank(c[..|c| - 1])
  }

  /** The flags entry `j` ends up with when the input holds `blanks` blank
      lines: only the first entry, and a trailing entry after a single blank
      line, escape darkening. */
  function Darkening(j: nat, blanks: nat): Flags
  {
    if 1 <= j && 2 <= blanks then EntryDarkened else EntryDefault
  }

  /** Every closed entry ends with its one blank line, caches its true count
      and carries the flags the alternating counter gives it. */
  predicate EntriesShaped(es: seq<Entry>)
  {
    forall j | 0 <= j < |es| ::
      BlankTerminated(es[j].content) && es[j].Consistent() && es[j].flags == Darkening(j, j + 1)
  }

  /** The loop state after one more line is one more step. */
  lemma RunSnoc(lines: seq<string>, line: string)
    ensures Run(lines + [line]) == Step(Run(lines), line)
  {
    assert (lines + [line])[..|lines|] == lines;
  }

  /** The loop invariant of `set_simple_text`, stated on the loop state. */
  predicate Shaped(s: LoopState, lines: seq<string>)
  {
    var b := Blanks(lines);
    && Flatten(s.entries) + s.pending.content == lines
    && |s.entries| == b
    && EntriesShaped(s.entries)
    && NoBlank(s.pending.content)
    && s.counter == b % 2
    && s.pending.flags == Darkening(b, b)
    && s.pending.foldedLineCount == (if b == 0 then 0 else |s.entries[b - 1].content|)
  }

  lemma FlattenSnoc(es: seq<Entry>, e: Entry)
    ensures Flatten(es + [e]) == Flatten(es) + e.content
  {
    assert (es + [e])[..|es|] == es;
  }

  lemma BlanksSnoc(lines: seq<string>, line: string)
    ensures Blanks(lines + [line]) == Blanks(lines) + (if line == "" then 1 else 0)
  {
    assert (lines + [line])[..|lines|] == lines;
  }

  lemma EntriesShapedSnoc(es: seq<Entry>, d: Entry)
    requires EntriesShaped(es)
    requires BlankTerminated(d.content) && d.Consistent() && d.flags == Darkening(|es|, |es| + 1)
    ensures EntriesShaped(es + [d])
  {
    var all := es + [d];
    forall j | 0 <= j < |all|
      ensures BlankTerminated(all[j].content) && all[j].Consistent() && all[j].flags == Darkening(j, j + 1)
    {
      if j < |es| {
        assert all[j] == es[j];
      }
    }
  }

  /** The entry a blank line closes, given the invariant before it. */
  lemma ClosedShaped(pending: Entry, counter: nat, b: nat)
    requires NoBlank(pending.content) && counter == b % 2 && pending.flags == Darkening(b, b)
    ensures var d := Closed(pending.AddText(""), counter);
      && d.content == pending.content + [""]
      && BlankTerminated(d.content) && d.Consistent() && d.flags == Darkening(b, b + 1)
  {
    var d := Closed(pending.AddText(""), counter);
    assert d.content[..|d.content| - 1] == pending.content;
    if counter % 4 != 0 {
      assert b % 2 == 1;
    }
  }

  /** The counter after a blank line keeps its parity invariant. */
  lemma CounterAlternates(counter: nat, b: nat)
    requires counter == b % 2
    ensures (counter % 4 != 0) == (b % 2 == 1)
    ensures (if counter % 4 != 0 then 0 else counter + 1) == (b + 1) % 2
    ensures (b % 2 == 1) == ((b + 1) % 2 == 0)
  {
  }

  lemma SnocAssoc(a: seq<string>, b: seq<string>, x: string)
    ensures (a + b) + [x] == a + (b + [x])
  {
  }

  /** A blank line closes the pending entry into a well-shaped entry. */
  lemma StepBlankEntries(s: LoopState, lines: seq<string>)
    requires Shaped(s, lines)
    ensures var t := Step(s, "");
      && Flatten(t.entries) + t.pending.content == lines + [""]
      && |t.entries| == Blanks(lines + [""])
      && EntriesShaped(t.entries)
  {
    var b := Blanks(lines);
    BlanksSnoc(lines, "");
    SnocAssoc(Flatten(s.entries), s.pending.content, "");
    var done := Closed(s.pending.AddText(""), s.counter);
    ClosedShaped(s.pending, s.counter, b);
    FlattenSnoc(s.entries, done);
    EntriesShapedSnoc(s.entries, done);
  }

  /** After a blank line nothing is pending, and the carried flags, count
      and counter are as the invariant says. */
  lemma StepBlankPending(s: LoopState, lines: seq<string>)
    requires Shaped(s, lines)
    ensures var t := Step(s, ""); var b := Blanks(lines + [""]);
      && NoBlank(t.pending.content)
      && t.counter == b % 2
      && t.pending.flags == Darkening(b, b)
      && t.pending.foldedLineCount == |t.entries[b - 1].content|
  {
    var b := Blanks(lines);
    BlanksSnoc(lines, "");
    ClosedShaped(s.pending, s.counter, b);
    CounterAlternates(s.counter, b);
  }

  lemma StepBlankShaped(s: LoopState, lines: seq<string>)
    requires Shaped(s, lines)
    ensures Shaped(Step(s, ""), lines + [""])
  {
    StepBlankEntries(s, lines);
    StepBlankPending(s, lines);
  }

  lemma StepLineShaped(s: LoopState, lines: seq<string>, line: string)
    requires Shaped(s, lines) && line != ""
    ensures Shaped(Step(s, line), lines + [line])
  {
    BlanksSnoc(lines, line);
    SnocAssoc(Flatten(s.entries), s.pending.content, line);
  }

  lemma StepShaped(s: LoopState, lines: seq<string>, line: string)
    requires Shaped(s, lines)
    ensures Shaped(Step(s, line), lines + [line])
  {
    if line == "" {
      StepBlankShaped(s, lines);
    } else {
      StepLineShaped(s, lines, line);
    }
  }

  lemma {:induction false} RunShaped(lines: seq<string>)
    ensures Shaped(Run(lines), lines)
  {
    if lines != [] {
      var init := lines[..|lines| - 1];
      RunShaped(init);
      StepShaped(Run(init), init, lines[|lines| - 1]);
      assert init + [lines[|lines| - 1]] == lines;
    }
  }

  /** The darkening test `i++ % 4` fires exactly on the 2nd, 4th, ... blank
      line, because the counter is reset to 0 whenever it fires. */
  lemma DarkeningFiresOnEvenBlank(lines: seq<string>)
    ensures Run(lines).counter < 2
    ensures (Run(lines).counter % 4 != 0) <==> Blanks(lines + [""]) % 2 == 0
  {
    RunShaped(lines);
    BlanksSnoc(lines, "");
    CounterAlternates(Run(lines).counter, Blanks(lines));
  }

  /** The entries hold the folded lines, all of them, in order. */
  lemma IngestFlattens(lines: seq<string>)
    ensures Flatten(Ingest(lines)) == lines
  {
    RunShaped(lines);
    var s := Run(lines);
    if s.pending.content != [] {
      var es := s.entries + [s.pending];
      assert es[..|es| - 1] == s.entries;
    }
  }

  /** Entries exist iff there is input, and none is empty. */
  lemma IngestNonEmpty(lines: seq<string>)
    ensures var es := Ingest(lines);
      && (es == [] <==> lines == [])
      && (forall j | 0 <= j < |es| :: es[j].content != [])
  {
    RunShaped(lines);
  }

  /** A blank line only ever ends an entry, and every entry but the last is
      closed by exactly one. */
  lemma IngestEntriesClosed(lines: seq<string>)
    ensures var es := Ingest(lines);
      && (forall j | 0 <= j < |es| - 1 :: BlankTerminated(es[j].content))
      && (forall j | 0 <= j < |es| :: NoBlank(es[j].content[..|es[j].content| - 1]))
  {
    RunShaped(lines);
    var s := Run(lines);
    var es := Ingest(lines);
    forall j | 0 <= j < |es|
      ensures j < |es| - 1 ==> BlankTerminated(es[j].content)
      ensures NoBlank(es[j].content[..|es[j].content| - 1])
    {
      if j < |s.entries| {
        assert es[j] == s.entries[j];
      } else {
        var p := s.pending.content;
        assert es[j].content == p;
        assert forall q | 0 <= q < |p| - 1 :: p[..|p| - 1][q] == p[q];
      }
    }
  }

  /** Lines that end with an unterminated pending part end with its last,
      non-blank line. */
  lemma PendingTail(entries: seq<Entry>, p: seq<string>, lines: seq<string>)
    requires Flatten(entries) + p == lines && p != [] && NoBlank(p)
    ensures lines != [] && lines[|lines| - 1] == p[|p| - 1] != ""
  {
  }

  /** Lines that are exactly the closed entries end with a blank line. */
  lemma ClosedTail(entries: seq<Entry>, lines: seq<string>)
    requires Flatten(entries) == lines && entries != []
    requires BlankTerminated(entries[|entries| - 1].content)
    ensures lines != [] && lines[|lines| - 1] == ""
  {
    var last := entries[|entries| - 1];
    assert Flatten(entries) == Flatten(entries[..|entries| - 1]) + last.content;
  }

  /** The last entry is closed by a blank line iff the input ends with one,
      and there is one entry per blank line, plus one for an unterminated
      tail. */
  lemma IngestLastEntry(lines: seq<string>)
    ensures var es := Ingest(lines);
      && (es != [] ==> (BlankTerminated(es[|es| - 1].content) <==> lines[|lines| - 1] == ""))
      && |es| == Blanks(lines) + (if lines != [] && lines[|lines| - 1] != "" then 1 else 0)
  {
    RunShaped(lines);
    var s := Run(lines);
    if s.pending.content != [] {
      PendingTail(s.entries, s.pending.content, lines);
    } else if s.entries != [] {
      ClosedTail(s.entries, lines);
    }
  }

  /** No more blank lines than lines. */
  lemma {:induction false} BlanksAtMost(lines: seq<string>)
    ensures Blanks(lines) <= |lines|
  {
    if lines != [] {
      BlanksAtMost(lines[..|lines| - 1]);
    }
  }

  /** `set_simple_text` never makes more entries than there are lines, so
      the entry count fits wherever the line count does. */
  lemma IngestSize(lines: seq<string>)
    ensures |Ingest(lines)| <= |lines|
  {
    IngestLastEntry(lines);
    if lines != [] {
      BlanksAtMost(lines[..|lines| - 1]);
    }
  }

  /** Every blank-terminated entry caches its true line count; the trailing
      unterminated entry keeps the count of the entry closed before it (0 if
      none), as `thisentry.folded_line_count_` is never refreshed for it. */
  lemma IngestCounts(lines: seq<string>)
    ensures var es := Ingest(lines);
      && (forall j | 0 <= j < |es| && BlankTerminated(es[j].content) :: es[j].Consistent())
      && (es != [] && !BlankTerminated(es[|es| - 1].content) ==>
            es[|es| - 1].foldedLineCount == (if |es| == 1 then 0 else |es[|es| - 2].content|))
  {
    RunShaped(lines);
    var s := Run(lines);
    if s.pending.content != [] {
      var p := s.pending.content;
      assert p[|p| - 1] != "";
    }
  }

  /** Entry 0 is never darkened; every later entry is, except a trailing
      entry that follows a single blank line. The flags are never anything
      but `entry_default` or `entry_darkened`. */
  lemma IngestDarkening(lines: seq<string>)
    ensures var es := Ingest(lines);
      forall j | 0 <= j < |es| :: es[j].flags == Darkening(j, Blanks(lines))
  {
    RunShaped(lines);
  }

  /** Every entry's cached count is right. */
  predicate AllConsistent(es: seq<Entry>)
  {
    forall j | 0 <= j < |es| :: es[j].Consistent()
  }

  lemma {:induction false} SumCountsOfConsistent(es: seq<Entry>)
    requires AllConsistent(es)
    ensures SumCounts(es) == |Flatten(es)|
  {
    if es != [] {
      SumCountsOfConsistent(es[..|es| - 1]);
    }
  }

  /** The cached counts add up to the number of folded lines exactly when the
      last entry's count is right, which always holds when the input is empty
      or ends with a blank line. */
  lemma IngestSumCounts(lines: seq<string>)
    ensures var es := Ingest(lines);
      SumCounts(es) == |lines| <==> (es == [] || es[|es| - 1].Consistent())
    ensures lines == [] || lines[|lines| - 1] == "" ==> SumCounts(Ingest(lines)) == |lines|
  {
    RunShaped(lines);
    var s := Run(lines);
    SumCountsOfConsistent(s.entries);
    if s.pending.content != [] {
      var es := s.entries + [s.pending];
      assert es[..|es| - 1] == s.entries;
      var p := s.pending.content;
      assert lines[|lines| - 1] == p[|p| - 1];
    }
  }

  /** The stale count in action: a single unterminated line gives one entry
      whose count is 0, so the counts no longer add up. */
  lemma StaleTrailingCount()
    ensures Ingest(["a"]) == [Entry(["a"], EntryDefault, 0)]
    ensures SumCounts(Ingest(["a"])) != |["a"]|
  {
    var lines := ["a"];
    assert lines[..0] == [];
    assert Run(lines) == Step(Initial, "a");
    assert "a" != "";
    assert Step(Initial, "a") == LoopState([], Entry(["a"], EntryDefault, 0), 0);
    var es := Ingest(lines);
    assert es == [Entry(["a"], EntryDefault, 0)];
    assert es[..0] == [];
  }

  /** The entries `set_simple_text` builds from `a b c <blank> d`. */
  lemma IngestStaleExample()
    ensures Ingest(["a", "b", "c", "", "d"])
         == [Entry(["a", "b", "c", ""], EntryDefault, 4), Entry(["d"], EntryDefault, 4)]
  {
    var lines := ["a", "b", "c", "", "d"];
    var e0 := Entry(["a", "b", "c", ""], EntryDefault, 4);
    RunThreeLines();
    var s3 := Run(["a", "b", "c"]);
    assert s3.pending.AddText("") == Entry(["a", "b", "c", ""], EntryDefault, 0);
    assert Closed(Entry(["a", "b", "c", ""], EntryDefault, 0), 0) == e0;
    assert ["a", "b", "c", ""][..3] == ["a", "b", "c"];
    assert Run(["a", "b", "c", ""]) == Step(s3, "");
    assert lines[..4] == ["a", "b", "c", ""];
    assert Run(lines) == LoopState([e0], Entry(["d"], EntryDefault, 4), 1);
  }

  /** The loop state after `a b c`: no entry yet, and the three lines
      pending with count 0. */
  lemma RunThreeLines()
    ensures Run(["a", "b", "c"]) == LoopState([], Entry(["a", "b", "c"], EntryDefault, 0), 0)
  {
    assert ["a"][..0] == [];
    assert Run(["a"]) == LoopState([], Entry(["a"], EntryDefault, 0), 0);
    assert ["a", "b"][..1] == ["a"];
    assert Run(["a", "b"]) == LoopState([], Entry(["a", "b"], EntryDefault, 0), 0);
    assert ["a", "b", "c"][..2] == ["a", "b"];
  }

  /** The entries `set_simple_text` builds from `a <blank> b c d`. */
  lemma IngestShortExample()
    ensures Ingest(["a", "", "b", "c", "d"])
         == [Entry(["a", ""], EntryDefault, 2), Entry(["b", "c", "d"], EntryDefault, 2)]
  {
    var e0 := Entry(["a", ""], EntryDefault, 2);
    RunOneClosedEntry();
    RunSnoc(["a", ""], "b");
    assert ["a", ""] + ["b"] == ["a", "", "b"];
    RunSnoc(["a", "", "b"], "c");
    assert ["a", "", "b"] + ["c"] == ["a", "", "b", "c"];
    RunSnoc(["a", "", "b", "c"], "d");
    assert ["a", "", "b", "c"] + ["d"] == ["a", "", "b", "c", "d"];
    assert Run(["a", "", "b", "c", "d"]) == LoopState([e0], Entry(["b", "c", "d"], EntryDefault, 2), 1);
  }

  /** The loop state after `a <blank>`: one closed entry of 2 lines, its
      count carried by the empty pending entry, and the counter at 1. */
  lemma RunOneClosedEntry()
    ensures Run(["a", ""])
         == LoopState([Entry(["a", ""], EntryDefault, 2)], Entry([], EntryDefault, 2), 1)
  {
    assert ["a"][..0] == [];
    assert Run(["a"]) == LoopState([], Entry(["a"], EntryDefault, 0), 0);
    assert Closed(Entry(["a", ""], EntryDefault, 0), 0) == Entry(["a", ""], EntryDefault, 2);
    assert Run(["a"]).pending.AddText("") == Entry(["a", ""], EntryDefault, 0);
    assert ["a", ""][..1] == ["a"];
    assert Run(["a", ""]) == Step(Run(["a"]), "");
  }
}
