/** Which entries `render_context` shows: every change widened by `context_lines` entries on both
    sides, with touching windows merged. */
module HunkRanges {
  import opened EditScripts

  /** Entries start, ..., end - 1. */
  datatype Range = Range(start: nat, end: nat)

  function ChangePositions(es: seq<Entry>): (r: seq<nat>)
    ensures forall k :: 0 <= k < |r| ==> r[k] < |es| && !es[r[k]].Context?
    ensures forall j, k :: 0 <= j < k < |r| ==> r[j] < r[k]
  {
    if es == [] then []
    else
      var n := |es| - 1;
      ChangePositions(es[..n]) + (if es[n].Context? then [] else [n])
  }

  lemma {:induction false} EveryChangeHasPosition(es: seq<Entry>, i: nat)
    requires i < |es| && !es[i].Context?
    ensures i in ChangePositions(es)
  {
    var n := |es| - 1;
    if i < n {
      EveryChangeHasPosition(es[..n], i);
    }
  }

  function WindowStart(pos: nat, ctx: nat): nat {
    if pos < ctx then 0 else pos - ctx
  }

  function WindowEnd(pos: nat, ctx: nat, len: nat): nat {
    if pos + ctx + 1 < len then pos + ctx + 1 else len
  }

  /** One iteration of the merge loop. */
  function Extend(ranges: seq<Range>, pos: nat, ctx: nat, len: nat): seq<Range> {
    var start, end := WindowStart(pos, ctx), WindowEnd(pos, ctx, len);
    if ranges != [] && start <= ranges[|ranges| - 1].end then
      var last := ranges[|ranges| - 1];
      ranges[..|ranges| - 1] + [Range(last.start, if last.end < end then end else last.end)]
    else
      ranges + [Range(start, end)]
  }

  function Merged(positions: seq<nat>, ctx: nat, len: nat): seq<Range> {
    if positions == [] then []
    else
      var n := |positions| - 1;
      Extend(Merged(positions[..n], ctx, len), positions[n], ctx, len)
  }

  /** `change_positions`. */
  method FindChanges(es: seq<Entry>) returns (positions: seq<nat>)
    ensures positions == ChangePositions(es)
  {
    positions := [];
    for i := 0 to |es|
      invariant positions == ChangePositions(es[..i])
    {
      assert es[..i + 1][..i] == es[..i];
      if !es[i].Context? {
        positions := positions + [i];
      }
    }
    assert es[..|es|] == es;
  }

  /** The loop of `render_context` that widens the changes and merges their windows. */
  lemma ExtendEmpty(pos: nat, ctx: nat, len: nat)
    ensures Extend([], pos, ctx, len) == [Range(WindowStart(pos, ctx), WindowEnd(pos, ctx, len))]
  {
    var range := Range(WindowStart(pos, ctx), WindowEnd(pos, ctx, len));
    assert [] + [range] == [range];
  }

  lemma MergedOneMore(positions: seq<nat>, k: nat, ctx: nat, len: nat)
    requires k < |positions|
    ensures Merged(positions[..k + 1], ctx, len) == Extend(Merged(positions[..k], ctx, len), positions[k], ctx, len)
  {
    assert positions[..k + 1][..k] == positions[..k];
  }

  method MergeRanges(positions: seq<nat>, ctx: nat, len: nat) returns (ranges: seq<Range>)
    ensures ranges == Merged(positions, ctx, len)
  {
    ranges := [];
    for k := 0 to |positions|
      invariant ranges == Merged(positions[..k], ctx, len)
    {
      ghost var before := ranges;
      var pos := positions[k];
      var start := if pos < ctx then 0 else pos - ctx;
      var end := if pos + ctx + 1 < len then pos + ctx + 1 else len;
      if ranges != [] {
        var last := ranges[|ranges| - 1];
        if start <= last.end {
          ranges := ranges[..|ranges| - 1] + [Range(last.start, if last.end < end then end else last.end)];
        } else {
          ranges := ranges + [Range(start, end)];
        }
      } else {
        ExtendEmpty(pos, ctx, len);
        ranges := [Range(start, end)];
      }
      assert ranges == Extend(before, pos, ctx, len);
      MergedOneMore(positions, k, ctx, len);
    }
    assert positions[..|positions|] == positions;
  }

  // ----- what the merged ranges are ------------------------------------------------------------

  /** Non-empty, inside the entry list, ascending, with at least one entry between neighbours. */
  predicate Separated(ranges: seq<Range>, len: nat) {
    && (forall k :: 0 <= k < |ranges| ==> ranges[k].start < ranges[k].end <= len)
    && (forall j, k :: 0 <= j < k < |ranges| ==> ranges[j].end < ranges[k].start)
  }

  ghost predicate Shown(ranges: seq<Range>, i: nat) {
    exists k :: 0 <= k < |ranges| && ranges[k].start <= i < ranges[k].end
  }

  ghost predicate NearPosition(positions: seq<nat>, i: nat, ctx: nat) {
    exists k :: 0 <= k < |positions| && positions[k] <= i + ctx && i <= positions[k] + ctx
  }

  ghost predicate NearChange(es: seq<Entry>, i: nat, ctx: nat) {
    exists q :: 0 <= q < |es| && !es[q].Context? && q <= i + ctx && i <= q + ctx
  }

  predicate Ascending(positions: seq<nat>, len: nat) {
    && (forall k :: 0 <= k < |positions| ==> positions[k] < len)
    && (forall j, k :: 0 <= j < k < |positions| ==> positions[j] < positions[k])
  }

  /** The last range is the one holding the last window, and it ends where that window ends. */
  predicate EndsWith(ranges: seq<Range>, pos: nat, ctx: nat, len: nat) {
    && ranges != []
    && ranges[|ranges| - 1].start <= WindowStart(pos, ctx)
    && ranges[|ranges| - 1].end == WindowEnd(pos, ctx, len)
  }

  lemma AppendSeparated(ranges: seq<Range>, last: Range, len: nat)
    requires Separated(ranges, len) && last.start < last.end <= len
    requires ranges != [] ==> ranges[|ranges| - 1].end < last.start
    ensures Separated(ranges + [last], len)
  {
    var more := ranges + [last];
    forall j | 0 <= j < |ranges| ensures more[j].end < last.start {
      assert more[j] == ranges[j];
      assert j < |ranges| - 1 ==> ranges[j].end < ranges[|ranges| - 1].start;
    }
  }

  lemma ExtendSeparated(ranges: seq<Range>, before: nat, pos: nat, ctx: nat, len: nat)
    requires Separated(ranges, len) && before <= pos < len
    requires ranges != [] ==> EndsWith(ranges, before, ctx, len)
    ensures Separated(Extend(ranges, pos, ctx, len), len)
    ensures EndsWith(Extend(ranges, pos, ctx, len), pos, ctx, len)
  {
    var more, n := Extend(ranges, pos, ctx, len), |ranges| - 1;
    if ranges != [] && WindowStart(pos, ctx) <= ranges[n].end {
      AppendSeparated(ranges[..n], more[n], len);
    } else {
      AppendSeparated(ranges, Range(WindowStart(pos, ctx), WindowEnd(pos, ctx, len)), len);
    }
  }

  lemma ExtendShown(ranges: seq<Range>, before: nat, pos: nat, ctx: nat, len: nat, i: nat)
    requires Separated(ranges, len) && before <= pos < len && i < len
    requires ranges != [] ==> EndsWith(ranges, before, ctx, len)
    ensures Shown(Extend(ranges, pos, ctx, len), i) <==> Shown(ranges, i) || (pos <= i + ctx && i <= pos + ctx)
  {
    var r := Extend(ranges, pos, ctx, len);
    var last := |r| - 1;
    if pos <= i + ctx && i <= pos + ctx {
      assert r[last].start <= i < r[last].end;
    }
    if Shown(ranges, i) {
      var k :| 0 <= k < |ranges| && ranges[k].start <= i < ranges[k].end;
      assert r[k].start <= i < r[k].end;
    }
    if Shown(r, i) {
      var k :| 0 <= k < |r| && r[k].start <= i < r[k].end;
      if k < |ranges| && i < ranges[k].end {
        assert ranges[k].start <= i;
      }
    }
  }

  lemma {:induction false} MergedExact(positions: seq<nat>, ctx: nat, len: nat)
    requires Ascending(positions, len)
    ensures Separated(Merged(positions, ctx, len), len)
    ensures positions != [] ==> EndsWith(Merged(positions, ctx, len), positions[|positions| - 1], ctx, len)
    ensures forall i :: 0 <= i < len ==> (Shown(Merged(positions, ctx, len), i) <==> NearPosition(positions, i, ctx))
  {
    if positions != [] {
      var n := |positions| - 1;
      var front := positions[..n];
      MergedExact(front, ctx, len);
      var before := if n == 0 then 0 else positions[n - 1];
      ExtendSeparated(Merged(front, ctx, len), before, positions[n], ctx, len);
      forall i | 0 <= i < len
        ensures Shown(Merged(positions, ctx, len), i) <==> NearPosition(positions, i, ctx)
      {
        ExtendShown(Merged(front, ctx, len), before, positions[n], ctx, len, i);
        NearLast(positions, i, ctx);
      }
    }
  }

  lemma NearLast(positions: seq<nat>, i: nat, ctx: nat)
    requires positions != []
    ensures
      var n := |positions| - 1;
      NearPosition(positions, i, ctx) <==>
        NearPosition(positions[..n], i, ctx) || (positions[n] <= i + ctx && i <= positions[n] + ctx)
  {
    var n := |positions| - 1;
    if NearPosition(positions[..n], i, ctx) {
      var k :| 0 <= k < n && positions[..n][k] <= i + ctx && i <= positions[..n][k] + ctx;
      assert positions[k] <= i + ctx;
    }
    if NearPosition(positions, i, ctx) {
      var k :| 0 <= k < |positions| && positions[k] <= i + ctx && i <= positions[k] + ctx;
      if k < n {
        assert positions[..n][k] <= i + ctx;
      }
    }
  }

  /** The hunks are sorted and apart, and together show exactly the entries within `ctx` entries
      of some change. */
  lemma HunksShowExactlyTheNeighbourhoods(es: seq<Entry>, ctx: nat)
    ensures Separated(Merged(ChangePositions(es), ctx, |es|), |es|)
    ensures forall i :: 0 <= i < |es| ==>
              (Shown(Merged(ChangePositions(es), ctx, |es|), i) <==> NearChange(es, i, ctx))
  {
    var positions := ChangePositions(es);
    MergedExact(positions, ctx, |es|);
    forall i | 0 <= i < |es| ensures NearPosition(positions, i, ctx) <==> NearChange(es, i, ctx) {
      if NearChange(es, i, ctx) {
        var q :| 0 <= q < |es| && !es[q].Context? && q <= i + ctx && i <= q + ctx;
        EveryChangeHasPosition(es, q);
        var k :| 0 <= k < |positions| && positions[k] == q;
      }
    }
  }
}
