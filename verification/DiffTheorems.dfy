/** What the four structured renderers have in common, and what the context and full-file
    renderings say about the files. */
module DiffTheorems {
  import opened Options
  import opened EditScripts
  import opened LineWalk
  import opened HunkRanges
  import opened DiffText
  import opened Patches
  import opened ContextHunks
  import opened Rendering
  import opened ContextRendering
  import opened SideBySide

  // ----- counts -----------------------------------------------------------------------------------

  /** Changes whose previous line exists. */
  function RemovedIn(changes: seq<LineChange>, np: nat): nat {
    if changes == [] then 0
    else (if changes[0].prevLine.Some? && changes[0].prevLine.value < np then 1 else 0) + RemovedIn(changes[1..], np)
  }

  /** Changes whose current line exists. */
  function AddedIn(changes: seq<LineChange>, nc: nat): nat {
    if changes == [] then 0
    else (if changes[0].currLine.Some? && changes[0].currLine.value < nc then 1 else 0) + AddedIn(changes[1..], nc)
  }

  lemma {:induction false} WalkCounts(changes: seq<LineChange>, p: nat, c: nat, np: nat, nc: nat)
    ensures AddedCount(Walk(changes, p, c, np, nc)) == AddedIn(changes, nc)
    ensures RemovedCount(Walk(changes, p, c, np, nc)) == RemovedIn(changes, np)
  {
    if changes == [] {
      RunCounts(p, c, np, nc, np, nc);
    } else {
      var ch := changes[0];
      var p', c' := NextPrev(ch, p, c, np, nc), NextCurr(ch, p, c, np, nc);
      WalkCounts(changes[1..], p', c', np, nc);
      SegmentCounts(ch, p, c, np, nc);
      ChangeCounts(ch, np, nc);
      CountsAppend(Segment(ch, p, c, np, nc), Walk(changes[1..], p', c', np, nc));
    }
  }

  lemma {:induction false} UnifiedCounts(changes: seq<LineChange>, np: nat, nc: nat)
    ensures AddedCount(UnifiedBody(changes, np, nc)) == AddedIn(changes, nc)
    ensures RemovedCount(UnifiedBody(changes, np, nc)) == RemovedIn(changes, np)
  {
    if changes != [] {
      UnifiedCounts(changes[1..], np, nc);
      ChangeCounts(changes[0], np, nc);
      CountsAppend(ChangeEntries(changes[0], np, nc), UnifiedBody(changes[1..], np, nc));
    }
  }

  /** A two-sided change with exactly one of its lines in range. */
  predicate HalfOut(ch: LineChange, np: nat, nc: nat) {
    ch.prevLine.Some? && ch.currLine.Some? && (ch.prevLine.value < np) != (ch.currLine.value < nc)
  }

  predicate NoneHalfOut(changes: seq<LineChange>, np: nat, nc: nat) {
    changes == [] || (!HalfOut(changes[0], np, nc) && NoneHalfOut(changes[1..], np, nc))
  }

  lemma ChangeRowsCounts(ch: LineChange, np: nat, nc: nat)
    ensures
      var rows := ChangeRows(ch, np, nc);
      var es := ChangeEntries(ch, np, nc);
      && RowsAdded(rows) <= AddedCount(es) && RowsRemoved(rows) <= RemovedCount(es)
      && (RowsAdded(rows) == AddedCount(es) && RowsRemoved(rows) == RemovedCount(es) <==> !HalfOut(ch, np, nc))
  {
    ChangeCounts(ch, np, nc);
    var rows := ChangeRows(ch, np, nc);
    assert rows != [] ==> |rows| == 1 && rows[1..] == [];
  }

  lemma {:induction false} SideCounts(changes: seq<LineChange>, p: nat, c: nat, np: nat, nc: nat)
    ensures
      var rows := SideWalk(changes, p, c, np, nc);
      && RowsAdded(rows) <= AddedIn(changes, nc) && RowsRemoved(rows) <= RemovedIn(changes, np)
      && (RowsAdded(rows) == AddedIn(changes, nc) && RowsRemoved(rows) == RemovedIn(changes, np)
          <==> NoneHalfOut(changes, np, nc))
  {
    if changes == [] {
      EqualRunCounts(p, c, np, nc, np, nc);
    } else {
      var ch := changes[0];
      var p', c' := SidePrev(ch, p, c, np, nc), SideCurr(ch, p, c, np, nc);
      SideCounts(changes[1..], p', c', np, nc);
      var run := EqualRun(p, c, Target(ch.prevLine, np), Target(ch.currLine, nc), np, nc);
      EqualRunCounts(p, c, Target(ch.prevLine, np), Target(ch.currLine, nc), np, nc);
      RowsAppend(run, ChangeRows(ch, np, nc));
      RowsAppend(SideSegment(ch, p, c, np, nc), SideWalk(changes[1..], p', c', np, nc));
      ChangeRowsCounts(ch, np, nc);
      ChangeCounts(ch, np, nc);
    }
  }

  /** In every change list, in any order, the unified, context and full-file renderers that render
      anything report the same counts: the changed lines that exist.  The side-by-side renderer
      reports them too exactly when no two-sided change has just one of its lines in range. */
  lemma RenderersCountAlike(report: Report, prev: Lines, curr: Lines, path: string, ctx: nat, width: nat)
    requires report.status == "changed"
    ensures
      var changes := AllChanges(report.chunks);
      var added, removed := AddedIn(changes, |curr|), RemovedIn(changes, |prev|);
      var unified := UnifiedOutput(report, prev, curr, path);
      var context := ContextOutput(report, prev, curr, path, ctx);
      var full := FullFileOutput(report, prev, curr, path);
      && (unified.Changed? && unified.added == added && unified.removed == removed)
      && (context.Changed? ==> context.added == added && context.removed == removed)
      && (full.Changed? ==> full.added == added && full.removed == removed)
      && (!Underflows(report, width) && SideOutput(report, prev, curr, path, width).Changed? ==>
            var side := SideOutput(report, prev, curr, path, width);
            (side.added == added && side.removed == removed <==> NoneHalfOut(changes, |prev|, |curr|)))
  {
    var changes := AllChanges(report.chunks);
    var es := Walk(changes, 0, 0, |prev|, |curr|);
    UnifiedCounts(changes, |prev|, |curr|);
    WalkCounts(changes, 0, 0, |prev|, |curr|);
    HunksCountEverything(es, ctx);
    SideCounts(changes, 0, 0, |prev|, |curr|);
  }

  /** An instance where the counts differ: the previous line of the change exists, its current one does not. */
  lemma HalfOutCountsDiffer(report: Report, a: string, b: string, path: string, width: nat)
    requires report.status == "changed" && AllChanges(report.chunks) == [LineChange(Some(0), Some(1))] && width >= 3
    ensures
      var unified, side := UnifiedOutput(report, [a], [b], path), SideOutput(report, [a], [b], path, width);
      unified.Changed? && side.Changed? && unified.removed == 1 && side.removed == 0
  {
    var ch := LineChange(Some(0), Some(1));
    assert [ch][0] == ch && [ch][1..] == [];
    RenderersCountAlike(report, [a], [b], path, 0, width);
    SideCounts([ch], 0, 0, 1, 1);
    assert !NoneHalfOut([ch], 1, 1) && RemovedIn([ch], 1) == 1 && AddedIn([ch], 1) == 0;
  }

  /** Every line number of the list exists. */
  predicate NamedInRange(changes: seq<LineChange>, np: nat, nc: nat) {
    changes == [] ||
    ((changes[0].prevLine.Some? ==> changes[0].prevLine.value < np)
     && (changes[0].currLine.Some? ==> changes[0].currLine.value < nc)
     && NamedInRange(changes[1..], np, nc))
  }

  lemma {:induction false} NamedNotHalfOut(changes: seq<LineChange>, np: nat, nc: nat)
    requires NamedInRange(changes, np, nc)
    ensures NoneHalfOut(changes, np, nc)
    ensures !NamesNoLine(changes) ==> AddedIn(changes, nc) + RemovedIn(changes, np) > 0
  {
    if changes != [] {
      NamedNotHalfOut(changes[1..], np, nc);
      if changes[0].prevLine.None? && changes[0].currLine.None? && NamesNoLine(changes[1..]) {
        forall i | 0 <= i < |changes| ensures changes[i].prevLine.None? && changes[i].currLine.None? {
          assert i > 0 ==> changes[i] == changes[1..][i - 1];
        }
      }
    }
  }

  lemma {:induction false} NoChangeNoCount(es: seq<Entry>)
    ensures ChangePositions(es) == [] ==> AddedCount(es) == RemovedCount(es) == 0
  {
    if es != [] {
      var n := |es| - 1;
      NoChangeNoCount(es[..n]);
      assert es == es[..n] + [es[n]];
      CountsAppend(es[..n], [es[n]]);
      CountsOne(es[n]);
    }
  }

  /** For any list with at least one line number whose line numbers all exist, in any order, all four
      render, with the same counts, as long as the width does not underflow. */
  lemma InRangeRenderersAgree(report: Report, prev: Lines, curr: Lines, path: string, ctx: nat, width: nat)
    requires report.status == "changed"
    requires !NamesNoLine(AllChanges(report.chunks)) && NamedInRange(AllChanges(report.chunks), |prev|, |curr|)
    ensures Underflows(report, width) <==> width < 3
    ensures
      var unified := UnifiedOutput(report, prev, curr, path);
      var context := ContextOutput(report, prev, curr, path, ctx);
      var full := FullFileOutput(report, prev, curr, path);
      && unified.Changed? && context.Changed? && full.Changed?
      && unified.added == context.added == full.added && unified.removed == context.removed == full.removed
      && (width >= 3 ==>
            var side := SideOutput(report, prev, curr, path, width);
            side.Changed? && side.added == unified.added && side.removed == unified.removed)
  {
    var changes := AllChanges(report.chunks);
    NamedNotHalfOut(changes, |prev|, |curr|);
    RenderersCountAlike(report, prev, curr, path, ctx, width);
    WalkCounts(changes, 0, 0, |prev|, |curr|);
    NoChangeNoCount(Walk(changes, 0, 0, |prev|, |curr|));
  }

  // ----- the context diff is a patch ---------------------------------------------------------------

  /** The hunks `render_context` prints. */
  function ContextHunkList(changes: seq<LineChange>, prev: Lines, curr: Lines, ctx: nat): seq<Hunk> {
    var es := Walk(changes, 0, 0, |prev|, |curr|);
    RangeHunks(es, RangesOf(es, ctx), prev, curr)
  }

  /** For a faithful change list, the printed hunks turn the previous file into the current one, and
      in reverse the current file into the previous one, if and only if every hunk that does not
      start the diff shows lines of both files.  Any positive number of context lines ensures that. */
  lemma ContextDiffIsPatch(changes: seq<LineChange>, prev: Lines, curr: Lines, ctx: nat)
    requires Faithful(changes, prev, curr)
    ensures
      var es := Walk(changes, 0, 0, |prev|, |curr|);
      var patch := PatchesOf(ContextHunkList(changes, prev, curr, ctx));
      && ApplyPatch(patch, prev, 0, 0) == (if HunksAnchored(es, ctx) then Some(curr) else None)
      && ApplyPatch(ReverseAll(patch), curr, 0, 0) == (if HunksAnchored(es, ctx) then Some(prev) else None)
      && (ctx >= 1 ==> HunksAnchored(es, ctx))
  {
    var es := Walk(changes, 0, 0, |prev|, |curr|);
    FaithfulInRange(changes, 0, 0, prev, curr);
    EditScriptIffFaithful(changes, prev, curr);
    HunksPatchForward(es, ctx, prev, curr);
    HunksPatchBackward(es, ctx, prev, curr);
    if ctx >= 1 {
      ContextAnchors(es, ctx);
    }
  }

  lemma InsertedLastWalk(np: nat)
    requires np == 1
    ensures Walk([LineChange(None, Some(1))], 0, 0, np, 2) == [Context(0, 0), Added(1)]
  {
    var ch := LineChange(None, Some(1));
    assert ContextRun(1, 1, np, 1, np, 2) == [] && ContextRun(0, 0, np, 1, np, 2) == [Context(0, 0)];
    assert ContextRun(np, 2, np, 2, np, 2) == [];
    assert [ch][1..] == [];
  }

  lemma LastEntryChanges(first: seq<Entry>, es: seq<Entry>)
    requires first == [Context(0, 0)] && es == first + [Added(1)]
    ensures ChangePositions(es) == [1]
  {
    assert first[..0] == [] && ChangePositions(first) == [];
    assert es[..1] == first;
  }

  lemma OneRange(positions: seq<nat>, ctx: nat)
    requires positions == [1] && ctx == 0
    ensures Merged(positions, ctx, 2) == [Range(1, 2)]
  {
    assert positions[..0] == [];
  }

  lemma LastEntryHunk(es: seq<Entry>, ctx: nat)
    requires es == [Context(0, 0), Added(1)] && ctx == 0
    ensures !HunksAnchored(es, ctx)
  {
    assert es == [Context(0, 0)] + [Added(1)];
    LastEntryChanges([Context(0, 0)], es);
    OneRange(ChangePositions(es), ctx);
    var last := Slice(es, Range(1, 2));
    assert last == [Added(1)] && last[1..] == [];
    assert PrevNumbers(last) == [];
    assert !RangeAnchored(es, RangesOf(es, ctx)[0]);
  }

  /** An instance where no hunk applies: a line added at the end of a one-line file, without context. The list
      is faithful, and the header of its hunk says line 1 of a file that it does not show. */
  lemma AddedLastWithoutContextIsRefused(a: string, x: string, ctx: nat)
    requires ctx == 0
    ensures
      var changes := [LineChange(None, Some(1))];
      && Faithful(changes, [a], [a, x]) && !HunksAnchored(Walk(changes, 0, 0, 1, 2), ctx)
      && ApplyPatch(PatchesOf(ContextHunkList(changes, [a], [a, x], ctx)), [a], 0, 0) == None
  {
    var changes := [LineChange(None, Some(1))];
    assert FaithfulHead(changes[0], 0, 0, [a], [a, x]) && changes[1..] == [];
    InsertedLastWalk(1);
    LastEntryHunk(Walk(changes, 0, 0, 1, 2), ctx);
    ContextDiffIsPatch(changes, [a], [a, x], ctx);
  }

  // ----- the full-file diff is lossless ----------------------------------------------------------

  /** The lines a full-file diff leaves when its added, or its removed, lines are dropped. */
  function WithoutAdded(rows: seq<Row>): Lines {
    if rows == [] then []
    else if rows[0].kind.AddedLine? then WithoutAdded(rows[1..])
    else [rows[0].content] + WithoutAdded(rows[1..])
  }

  function WithoutRemoved(rows: seq<Row>): Lines {
    if rows == [] then []
    else if rows[0].kind.RemovedLine? then WithoutRemoved(rows[1..])
    else [rows[0].content] + WithoutRemoved(rows[1..])
  }

  lemma {:induction false} RowsTell(es: seq<Entry>, p: nat, c: nat, prev: Lines, curr: Lines)
    requires Completes(es, p, c, prev, curr) && p <= |prev| && c <= |curr|
    ensures WithoutAdded(RowsOf(es, prev, curr)) == prev[p..]
    ensures WithoutRemoved(RowsOf(es, prev, curr)) == curr[c..]
  {
    if es != [] {
      NumbersCons(es, p, c);
      RowsTell(es[1..], PrevNext(es[0], p), CurrNext(es[0], c), prev, curr);
      var rows := RowsOf(es, prev, curr);
      assert rows[0] == RowOf(es[0], prev, curr) && rows[1..] == RowsOf(es[1..], prev, curr);
      if !es[0].Added? {
        assert prev[p..] == [prev[p]] + prev[p + 1..];
      }
      if !es[0].Removed? {
        assert curr[c..] == [curr[c]] + curr[c + 1..];
      }
    }
  }

  /** For a faithful change list, the rows of the full-file diff hold both files. */
  lemma FullFileIsLossless(changes: seq<LineChange>, prev: Lines, curr: Lines)
    requires Faithful(changes, prev, curr)
    ensures
      var rows := RowsOf(FullFileBody(changes, prev, curr), prev, curr);
      WithoutAdded(rows) == prev && WithoutRemoved(rows) == curr
  {
    var es := FullFileBody(changes, prev, curr);
    FaithfulInRange(changes, 0, 0, prev, curr);
    EditScriptIffFaithful(changes, prev, curr);
    EditScriptIffCompletes(es, prev, curr);
    RowsTell(es, 0, 0, prev, curr);
    assert prev[0..] == prev && curr[0..] == curr;
  }
}
