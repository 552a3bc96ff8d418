/** What the renderers answer to any report, and what the dashboard reads out of the two renderings that list
    changed lines only. */
module RendererTheorems {
  import opened Options
  import opened EditScripts
  import opened LineWalk
  import opened MissingLines
  import opened DiffText
  import opened RowSides
  import opened HunkRanges
  import opened Patches
  import opened ContextHunks
  import opened Rendering
  import opened ContextRendering
  import opened SideBySide
  import opened LineDiff
  import opened DiffTheorems
  import opened RoundTrip
  import opened PatchText
  import opened PatchReading
  import V = DiffViewer

  // ----- which answer ---------------------------------------------------------------------------------

  predicate Kept(status: string, out: DiffOutput) {
    && (status == "unchanged" ==> out.Unchanged?)
    && (status != "unchanged" && status != "changed" ==> out == Error("unexpected difftastic status: " + status))
  }

  predicate NamesExisting(changes: seq<LineChange>, np: nat, nc: nat) {
    exists k :: 0 <= k < |changes| && NamesOne(changes[k], np, nc)
  }

  lemma {:induction false} ExistingCounts(changes: seq<LineChange>, np: nat, nc: nat)
    ensures NamesExisting(changes, np, nc) <==> AddedIn(changes, nc) + RemovedIn(changes, np) > 0
  {
    if changes != [] {
      var rest := changes[1..];
      ExistingCounts(rest, np, nc);
      if k :| 0 <= k < |rest| && NamesOne(rest[k], np, nc) {
        assert changes[k + 1] == rest[k];
      }
      if k :| 0 <= k < |changes| && NamesOne(changes[k], np, nc) {
        assert k > 0 ==> rest[k - 1] == changes[k];
      }
    }
  }

  lemma {:induction false} PositionsCount(es: seq<Entry>)
    ensures |ChangePositions(es)| == AddedCount(es) + RemovedCount(es)
  {
    if es != [] {
      var n := |es| - 1;
      PositionsCount(es[..n]);
      assert es == es[..n] + [es[n]];
      CountsAppend(es[..n], [es[n]]);
      CountsOne(es[n]);
    }
  }

  /** For every report: all four renderers report "unchanged" as such and any status but "changed" as an error.
      For a changed one, the unified rendering always shows, the context one if and only if a line that is
      named exists, the full-file one if and only if a line is named; so does the two-column one, whose width
      must be at least 3 then. */
  lemma AnswersByStatus(report: Report, prev: Lines, curr: Lines, path: string, ctx: nat, width: nat)
    ensures Kept(report.status, UnifiedOutput(report, prev, curr, path))
    ensures Kept(report.status, ContextOutput(report, prev, curr, path, ctx))
    ensures Kept(report.status, FullFileOutput(report, prev, curr, path))
    ensures report.status != "changed" ==>
              !Underflows(report, width) && Kept(report.status, SideOutput(report, prev, curr, path, width))
    ensures report.status == "changed" ==>
              var changes := AllChanges(report.chunks);
              var named := exists k :: 0 <= k < |changes| && (changes[k].prevLine.Some? || changes[k].currLine.Some?);
              var context := ContextOutput(report, prev, curr, path, ctx);
              var full := FullFileOutput(report, prev, curr, path);
              && UnifiedOutput(report, prev, curr, path).Changed?
              && !context.Error? && (context.Changed? <==> NamesExisting(changes, |prev|, |curr|))
              && !full.Error? && (full.Changed? <==> named)
              && (Underflows(report, width) <==> width < 3 && named)
              && (!Underflows(report, width) ==>
                    var side := SideOutput(report, prev, curr, path, width);
                    !side.Error? && (side.Changed? <==> named))
  {
    if report.status == "changed" {
      var changes := AllChanges(report.chunks);
      WalkCounts(changes, 0, 0, |prev|, |curr|);
      ExistingCounts(changes, |prev|, |curr|);
      PositionsCount(Walk(changes, 0, 0, |prev|, |curr|));
    }
  }

  // ----- from chunks to a patch -------------------------------------------------------------------------

  lemma FaithfulNamesExisting(changes: seq<LineChange>, prev: Lines, curr: Lines)
    requires Faithful(changes, prev, curr) && changes != []
    ensures NamesExisting(changes, |prev|, |curr|) && EachNamesLine(changes)
  {
    FaithfulEachNames(changes, 0, 0, prev, curr);
    assert FaithfulHead(changes[0], 0, 0, prev, curr);
  }

  lemma {:induction false} FaithfulEachNames(changes: seq<LineChange>, p: nat, c: nat, prev: Lines, curr: Lines)
    requires p <= |prev| && c <= |curr| && FaithfulFrom(changes, p, c, prev, curr)
    ensures EachNamesLine(changes)
  {
    if changes != [] {
      var ch := changes[0];
      FaithfulEachNames(changes[1..], PrevAfter(ch, p, c), CurrAfter(ch, p, c), prev, curr);
      forall k | 0 <= k < |changes| ensures changes[k].prevLine.Some? || changes[k].currLine.Some? {
        if k > 0 {
          assert changes[k] == changes[1..][k - 1];
        }
      }
    }
  }

  /** From the chunks of any faithful list of changes, in any grouping, to the text and back: the context
      renderer prints a diff, and what is read from it is a patch from the previous to the current text if
      and only if its hunks are anchored and its rows recoverable. */
  lemma ChunksArePrintedAsPatch(report: Report, changes: seq<LineChange>, previous: string, current: string,
                                path: string, ctx: nat)
    requires report.status == "changed" && Flat(report.chunks) == ChunksOf(changes) && changes != []
    requires Faithful(changes, LinesOf(previous), LinesOf(current)) && '\n' !in path
    ensures ContextOutput(report, LinesOf(previous), LinesOf(current), path, ctx).Changed?
    ensures
      var prev, curr := LinesOf(previous), LinesOf(current);
      var (_, raw) := ReadRendering(ContextOutput(report, prev, curr, path, ctx).render);
      ReadsAsPatch(raw, prev, curr)
      <==> && HunksAnchored(Walk(changes, 0, 0, |prev|, |curr|), ctx)
           && AllRecoverable(ContextRows(changes, prev, curr, ctx))
  {
    FaithfulNamesExisting(changes, LinesOf(previous), LinesOf(current));
    ChunksRoundTrip(report.chunks, changes);
    AnswersByStatus(report, LinesOf(previous), LinesOf(current), path, ctx, 3);
    ContextTextIsPatchIff(report, previous, current, path, ctx);
  }

  // ----- the unified rendering --------------------------------------------------------------------------

  /** Of each change its removed line, then its added line, with their numbers, where they exist. */
  function ChangedLines(changes: seq<LineChange>, prev: Lines, curr: Lines): seq<RawLine> {
    if changes == [] then []
    else
      var p, c := changes[0].prevLine, changes[0].currLine;
      (if p.Some? && p.value < |prev| then [RawLine(RemovedLine, Some(p.value + 1), prev[p.value])] else [])
      + (if c.Some? && c.value < |curr| then [RawLine(AddedLine, Some(c.value + 1), curr[c.value])] else [])
      + ChangedLines(changes[1..], prev, curr)
  }

  lemma {:induction false} RawsAppend(a: seq<Row>, b: seq<Row>)
    ensures RawsOf(a + b) == RawsOf(a) + RawsOf(b)
  {
    if a == [] {
      assert a + b == b;
    } else {
      assert (a + b)[0] == a[0] && (a + b)[1..] == a[1..] + b;
      RawsAppend(a[1..], b);
    }
  }

  lemma RowsOfAppend(a: seq<Entry>, b: seq<Entry>, prev: Lines, curr: Lines)
    ensures RowsOf(a + b, prev, curr) == RowsOf(a, prev, curr) + RowsOf(b, prev, curr)
  {
  }

  /** The line of an entry that is not context. */
  function LineOfEntry(e: Entry, prev: Lines, curr: Lines): RawLine {
    match e
    case Context(_, c) => RawLine(ContextLine, Some(c + 1), LineAt(curr, c))
    case Removed(p) => RawLine(RemovedLine, Some(p + 1), LineAt(prev, p))
    case Added(c) => RawLine(AddedLine, Some(c + 1), LineAt(curr, c))
  }

  lemma OneRow(e: Entry, prev: Lines, curr: Lines)
    ensures RawsOf(RowsOf([e], prev, curr)) == [LineOfEntry(e, prev, curr)]
  {
    assert [e][1..] == [];
  }

  lemma TwoRows(a: Entry, b: Entry, prev: Lines, curr: Lines)
    ensures RawsOf(RowsOf([a, b], prev, curr)) == [LineOfEntry(a, prev, curr), LineOfEntry(b, prev, curr)]
  {
    OneRow(a, prev, curr);
    OneRow(b, prev, curr);
    assert [a, b] == [a] + [b];
    RowsOfAppend([a], [b], prev, curr);
    RawsAppend(RowsOf([a], prev, curr), RowsOf([b], prev, curr));
  }

  lemma OneChangeLines(ch: LineChange, prev: Lines, curr: Lines)
    ensures RawsOf(RowsOf(ChangeEntries(ch, |prev|, |curr|), prev, curr)) == ChangedLines([ch], prev, curr)
  {
    var es := ChangeEntries(ch, |prev|, |curr|);
    OneChange(ch, prev, curr);
    if |es| == 1 {
      OneRow(es[0], prev, curr);
      assert es == [es[0]];
    } else if |es| == 2 {
      TwoRows(es[0], es[1], prev, curr);
      assert es == [es[0], es[1]];
    }
  }

  lemma OneChange(ch: LineChange, prev: Lines, curr: Lines)
    ensures ChangedLines([ch], prev, curr)
         == (if ch.prevLine.Some? && ch.prevLine.value < |prev|
             then [LineOfEntry(Removed(ch.prevLine.value), prev, curr)] else [])
          + (if ch.currLine.Some? && ch.currLine.value < |curr|
             then [LineOfEntry(Added(ch.currLine.value), prev, curr)] else [])
  {
    var removed := if ch.prevLine.Some? && ch.prevLine.value < |prev|
                   then [LineOfEntry(Removed(ch.prevLine.value), prev, curr)] else [];
    var added := if ch.currLine.Some? && ch.currLine.value < |curr|
                 then [LineOfEntry(Added(ch.currLine.value), prev, curr)] else [];
    assert [ch][1..] == [] && removed + added + [] == removed + added;
  }

  lemma ChangedLinesCons(ch: LineChange, changes: seq<LineChange>, prev: Lines, curr: Lines)
    ensures ChangedLines([ch] + changes, prev, curr)
         == ChangedLines([ch], prev, curr) + ChangedLines(changes, prev, curr)
  {
    assert ([ch] + changes)[0] == ch && ([ch] + changes)[1..] == changes && [ch][1..] == [];
  }

  lemma {:induction false} UnifiedRows(changes: seq<LineChange>, prev: Lines, curr: Lines)
    ensures RawsOf(RowsOf(UnifiedBody(changes, |prev|, |curr|), prev, curr)) == ChangedLines(changes, prev, curr)
  {
    if changes != [] {
      var es, rest := ChangeEntries(changes[0], |prev|, |curr|), UnifiedBody(changes[1..], |prev|, |curr|);
      UnifiedRows(changes[1..], prev, curr);
      OneChangeLines(changes[0], prev, curr);
      RowsOfAppend(es, rest, prev, curr);
      RawsAppend(RowsOf(es, prev, curr), RowsOf(rest, prev, curr));
      ChangedLinesCons(changes[0], changes[1..], prev, curr);
      assert changes == [changes[0]] + changes[1..];
    }
  }

  /** For every changed report and any two texts: the dashboard reads out of the unified rendering the path and
      then of each change its removed and its added line, if and only if the path fits on its line and every
      one of these lines is recoverable. */
  lemma UnifiedRoundTrip(report: Report, previous: string, current: string, path: string)
    requires report.status == "changed"
    ensures
      var prev, curr := LinesOf(previous), LinesOf(current);
      var changes := AllChanges(report.chunks);
      var (format, raw) := ReadRendering(UnifiedOutput(report, prev, curr, path).render);
      && format == V.Unified
      && (raw == ItemRaws(PathItems(path)) + ChangedLines(changes, prev, curr)
          <==> CleanPath(path) && RowsRecoverable(RowsOf(UnifiedBody(changes, |prev|, |curr|), prev, curr)))
  {
    LinesHaveNoNewlines(previous);
    LinesHaveNoNewlines(current);
    UnifiedRead(report, LinesOf(previous), LinesOf(current), path);
  }

  lemma UnifiedRead(report: Report, prev: Lines, curr: Lines, path: string)
    requires report.status == "changed" && NoNewlines(prev) && NoNewlines(curr)
    ensures
      var changes := AllChanges(report.chunks);
      var (format, raw) := ReadRendering(UnifiedOutput(report, prev, curr, path).render);
      && format == V.Unified
      && (raw == ItemRaws(PathItems(path)) + ChangedLines(changes, prev, curr)
          <==> CleanPath(path) && RowsRecoverable(RowsOf(UnifiedBody(changes, |prev|, |curr|), prev, curr)))
  {
    var changes := AllChanges(report.chunks);
    var es := UnifiedBody(changes, |prev|, |curr|);
    var body := BodyItems(es, prev, curr);
    PathItemsText(path);
    BodyItemsText(es, prev, curr);
    ItemsTextAppend(PathItems(path), body);
    BodyItemsPrintable(es, prev, curr);
    RenderingRoundTrip(path, body);
    RenderingRead(V.Unified, PathLines(path), EntriesText(es, prev, curr));
    ItemRawsAppend(PathItems(path), body);
    BodyItemsRows(es, prev, curr);
    UnifiedRows(changes, prev, curr);
  }

  // ----- the fallback -----------------------------------------------------------------------------------

  /** The positions from i on at which the first file has a line that the second one does not have there. */
  function Unmatched(lines: Lines, others: Lines, i: nat): set<nat> {
    set k | i <= k < |lines| && (k >= |others| || others[k] != lines[k])
  }

  lemma {:induction false} CountedUnmatched(prev: Lines, curr: Lines, i: nat)
    ensures |AddedFrom(prev, curr, i)| == |Unmatched(curr, prev, i)|
    decreases |curr| - i
  {
    if i < |curr| {
      CountedUnmatched(prev, curr, i + 1);
      if Differs(curr, prev, i) {
        assert Unmatched(curr, prev, i) == {i} + Unmatched(curr, prev, i + 1);
      } else {
        assert Unmatched(curr, prev, i) == Unmatched(curr, prev, i + 1);
      }
    }
  }

  lemma {:induction false} RemovedAreAdded(prev: Lines, curr: Lines, i: nat)
    ensures |RemovedFrom(prev, curr, i)| == |AddedFrom(curr, prev, i)|
    decreases |prev| - i
  {
    if i < |prev| {
      RemovedAreAdded(prev, curr, i + 1);
    }
  }

  /** The fallback for any two texts: no change for equal texts only; otherwise the counts are the positions
      of lines the other text does not have there, and the dashboard reads the rows of the diff, from which
      either text follows, out of its text if and only if every row is recoverable. */
  lemma LineDiffRoundTrip(previous: string, current: string)
    ensures LineDiffOf(previous, current).Unchanged? <==> previous == current
    ensures previous != current ==>
              var prev, curr := LinesOf(previous), LinesOf(current);
              var out, rows := LineDiffOf(previous, current), LineDiffRows(prev, curr);
              && out.Changed? && out.added == |Unmatched(curr, prev, 0)| && out.removed == |Unmatched(prev, curr, 0)|
              && ReadRendering(out.render).0 == V.Unified
              && (ReadRendering(out.render).1 == RawsOf(rows) <==> RowsRecoverable(rows))
  {
    if previous != current {
      var prev, curr := LinesOf(previous), LinesOf(current);
      LinesHaveNoNewlines(previous);
      LinesHaveNoNewlines(current);
      CountedUnmatched(prev, curr, 0);
      CountedUnmatched(curr, prev, 0);
      RemovedAreAdded(prev, curr, 0);
      FallbackRead(previous, current, prev, curr);
    }
  }

  lemma FallbackRead(previous: string, current: string, prev: Lines, curr: Lines)
    requires previous != current && prev == LinesOf(previous) && curr == LinesOf(current)
    requires NoNewlines(prev) && NoNewlines(curr)
    ensures ReadRendering(LineDiffOf(previous, current).render).0 == V.Unified
    ensures ReadRendering(LineDiffOf(previous, current).render).1 == RawsOf(LineDiffRows(prev, curr))
            <==> RowsRecoverable(LineDiffRows(prev, curr))
  {
    var added, removed := AddedFrom(prev, curr, 0), RemovedFrom(prev, curr, 0);
    var es := added + removed;
    EntriesTextAppend(added, removed, prev, curr);
    RowsOfAppend(added, removed, prev, curr);
    RenderingRead(V.Unified, EntriesText(added, prev, curr), EntriesText(removed, prev, curr));
    BodyItemsText(es, prev, curr);
    BodyItemsPrintable(es, prev, curr);
    ItemsRoundTrip(BodyItems(es, prev, curr));
    BodyItemsRows(es, prev, curr);
  }
}
