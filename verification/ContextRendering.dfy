/** `render_context` of crates/config-diff/src/difftastic.rs: hunk headers, bodies and counts. */
module ContextRendering {
  import opened Options
  import opened EditScripts
  import opened LineWalk
  import opened HunkRanges
  import opened DiffText
  import opened Patches
  import opened ContextHunks
  import opened Rendering

  function HeaderLine(h: Hunk): string {
    "@@ -" + Decimal(h.prevStart) + "," + Decimal(h.prevCount)
    + " +" + Decimal(h.currStart) + "," + Decimal(h.currCount) + " @@"
  }

  function HunkText(es: seq<Entry>, prev: Lines, curr: Lines): string {
    HeaderLine(HunkOf(es, prev, curr)) + "\n" + EntriesText(es, prev, curr)
  }

  function HunksText(es: seq<Entry>, ranges: seq<Range>, prev: Lines, curr: Lines): string {
    if ranges == [] then ""
    else HunkText(Slice(es, ranges[0]), prev, curr) + HunksText(es, ranges[1..], prev, curr)
  }

  function HunksAdded(es: seq<Entry>, ranges: seq<Range>): nat {
    if ranges == [] then 0 else AddedCount(Slice(es, ranges[0])) + HunksAdded(es, ranges[1..])
  }

  function HunksRemoved(es: seq<Entry>, ranges: seq<Range>): nat {
    if ranges == [] then 0 else RemovedCount(Slice(es, ranges[0])) + HunksRemoved(es, ranges[1..])
  }

  function ContextOutput(report: Report, prev: Lines, curr: Lines, path: string, ctx: nat): DiffOutput {
    if report.status == "unchanged" then Unchanged
    else if report.status != "changed" then Error("unexpected difftastic status: " + report.status)
    else
      var es := Walk(AllChanges(report.chunks), 0, 0, |prev|, |curr|);
      if AllChanges(report.chunks) == [] || ChangePositions(es) == [] then Unchanged
      else
        var ranges := RangesOf(es, ctx);
        Changed(PREFIX_CONTEXT + PathLines(path) + HunksText(es, ranges, prev, curr),
                HunksAdded(es, ranges), HunksRemoved(es, ranges))
  }

  function First(numbers: seq<nat>): Option<nat> {
    if numbers == [] then None else Some(numbers[0])
  }

  lemma PrefixNumbers(es: seq<Entry>, i: nat)
    requires i < |es|
    ensures PrevNumbers(es[..i + 1]) == PrevNumbers(es[..i]) + (if es[i].Added? then [] else [es[i].prevLn])
    ensures CurrNumbers(es[..i + 1]) == CurrNumbers(es[..i]) + (if es[i].Removed? then [] else [es[i].currLn])
  {
    assert es[..i + 1] == es[..i] + [es[i]];
    assert [es[i]][1..] == [];
    PrevNumbersAppend(es[..i], [es[i]]);
    CurrNumbersAppend(es[..i], [es[i]]);
  }

  lemma PrefixText(es: seq<Entry>, i: nat, prev: Lines, curr: Lines)
    requires i < |es|
    ensures EntriesText(es[..i + 1], prev, curr) == EntriesText(es[..i], prev, curr) + EntryLine(es[i], prev, curr)
  {
    assert es[..i + 1] == es[..i] + [es[i]];
    EntriesTextAppend(es[..i], [es[i]], prev, curr);
    EntriesTextOne(es[i], prev, curr);
  }

  lemma PrefixCounts(es: seq<Entry>, i: nat)
    requires i < |es|
    ensures AddedCount(es[..i + 1]) == AddedCount(es[..i]) + (if es[i].Added? then 1 else 0)
    ensures RemovedCount(es[..i + 1]) == RemovedCount(es[..i]) + (if es[i].Removed? then 1 else 0)
  {
    assert es[..i + 1] == es[..i] + [es[i]];
    CountsAppend(es[..i], [es[i]]);
    CountsOne(es[i]);
  }

  /** The first loop over a hunk: header numbers. */
  method HunkHeader(es: seq<Entry>) returns (prevStart: nat, prevCount: nat, currStart: nat, currCount: nat)
    ensures prevStart == HeaderStart(PrevNumbers(es)) && prevCount == |PrevNumbers(es)|
    ensures currStart == HeaderStart(CurrNumbers(es)) && currCount == |CurrNumbers(es)|
  {
    prevCount, currCount := 0, 0;
    var firstPrev: Option<nat>, firstCurr: Option<nat> := None, None;
    for i := 0 to |es|
      invariant prevCount == |PrevNumbers(es[..i])| && firstPrev == First(PrevNumbers(es[..i]))
      invariant currCount == |CurrNumbers(es[..i])| && firstCurr == First(CurrNumbers(es[..i]))
    {
      PrefixNumbers(es, i);
      match es[i] {
        case Context(p, c) =>
          if firstPrev.None? {
            firstPrev := Some(p);
          }
          if firstCurr.None? {
            firstCurr := Some(c);
          }
          prevCount, currCount := prevCount + 1, currCount + 1;
        case Removed(p) =>
          if firstPrev.None? {
            firstPrev := Some(p);
          }
          prevCount := prevCount + 1;
        case Added(c) =>
          if firstCurr.None? {
            firstCurr := Some(c);
          }
          currCount := currCount + 1;
      }
    }
    assert es[..|es|] == es;
    prevStart := (if firstPrev.Some? then firstPrev.value else 0) + 1;
    currStart := (if firstCurr.Some? then firstCurr.value else 0) + 1;
  }

  /** One line of a hunk, and whether it counts as added or removed. */
  method BodyLine(e: Entry, prev: Lines, curr: Lines) returns (line: string, added: nat, removed: nat)
    requires EntryInBounds(e, |prev|, |curr|)
    ensures line == EntryLine(e, prev, curr)
    ensures added == (if e.Added? then 1 else 0) && removed == (if e.Removed? then 1 else 0)
  {
    FormatsEntry(e, prev, curr);
    added, removed := 0, 0;
    match e {
      case Context(_, c) => line := FormatLine(c + 1, " ", curr[c]);
      case Removed(p) => line, removed := FormatLine(p + 1, "-", prev[p]), 1;
      case Added(c) => line, added := FormatLine(c + 1, "+", curr[c]), 1;
    }
  }

  /** The second loop over a hunk: its lines and counts. */
  method HunkBody(es: seq<Entry>, prev: Lines, curr: Lines) returns (text: string, added: nat, removed: nat)
    requires InBounds(es, |prev|, |curr|)
    ensures text == EntriesText(es, prev, curr) && added == AddedCount(es) && removed == RemovedCount(es)
  {
    text, added, removed := "", 0, 0;
    for i := 0 to |es|
      invariant text == EntriesText(es[..i], prev, curr)
      invariant added == AddedCount(es[..i]) && removed == RemovedCount(es[..i])
    {
      PrefixText(es, i, prev, curr);
      PrefixCounts(es, i);
      var line, more, less := BodyLine(es[i], prev, curr);
      text, added, removed := text + line, added + more, removed + less;
    }
    assert es[..|es|] == es;
  }

  /** The loop over the hunk ranges. */
  method HunksLoop(es: seq<Entry>, ranges: seq<Range>, prev: Lines, curr: Lines)
    returns (text: string, added: nat, removed: nat)
    requires InBounds(es, |prev|, |curr|)
    requires Separated(ranges, |es|)
    ensures text == HunksText(es, ranges, prev, curr)
    ensures added == HunksAdded(es, ranges) && removed == HunksRemoved(es, ranges)
  {
    text, added, removed := "", 0, 0;
    for k := 0 to |ranges|
      invariant text + HunksText(es, ranges[k..], prev, curr) == HunksText(es, ranges, prev, curr)
      invariant added + HunksAdded(es, ranges[k..]) == HunksAdded(es, ranges)
      invariant removed + HunksRemoved(es, ranges[k..]) == HunksRemoved(es, ranges)
    {
      assert ranges[k..][0] == ranges[k] && ranges[k..][1..] == ranges[k + 1..];
      HunksTextStep(text, es, ranges[k..], prev, curr);
      var hunk, a, r := RenderHunk(es, ranges[k], prev, curr);
      text, added, removed := text + hunk, added + a, removed + r;
    }
    assert ranges[|ranges|..] == [];
  }

  lemma HunksTextStep(text: string, es: seq<Entry>, ranges: seq<Range>, prev: Lines, curr: Lines)
    requires ranges != []
    ensures text + HunksText(es, ranges, prev, curr)
         == (text + HunkText(Slice(es, ranges[0]), prev, curr)) + HunksText(es, ranges[1..], prev, curr)
  {
  }

  /** One hunk, over `entries.iter().take(end).skip(start)`: header, then body. */
  method RenderHunk(es: seq<Entry>, range: Range, prev: Lines, curr: Lines)
    returns (text: string, added: nat, removed: nat)
    requires InBounds(es, |prev|, |curr|) && range.start < range.end <= |es|
    ensures text == HunkText(Slice(es, range), prev, curr)
    ensures added == AddedCount(Slice(es, range)) && removed == RemovedCount(Slice(es, range))
  {
    var hunk := es[..range.end][range.start..];
    assert hunk == Slice(es, range);
    var prevStart, prevCount, currStart, currCount := HunkHeader(hunk);
    var header := "@@ -" + Decimal(prevStart) + "," + Decimal(prevCount)
                  + " +" + Decimal(currStart) + "," + Decimal(currCount) + " @@";
    text, added, removed := HunkBody(hunk, prev, curr);
    text := header + "\n" + text;
  }

  /** `render_context`. */
  method RenderContext(report: Report, prev: Lines, curr: Lines, path: string, ctx: nat) returns (out: DiffOutput)
    ensures out == ContextOutput(report, prev, curr, path, ctx)
  {
    if report.status == "unchanged" {
      return Unchanged;
    }
    if report.status != "changed" {
      return Error("unexpected difftastic status: " + report.status);
    }
    var changes := CollectLineChanges(report.chunks);
    if changes == [] {
      return Unchanged;
    }
    var es := BuildEntries(changes, |prev|, |curr|);
    if es == [] {
      return Unchanged;
    }
    var positions := FindChanges(es);
    if positions == [] {
      return Unchanged;
    }
    var ranges := MergeRanges(positions, ctx, |es|);
    WalkInBounds(changes, 0, 0, |prev|, |curr|);
    HunksShowExactlyTheNeighbourhoods(es, ctx);
    var text, added, removed := HunksLoop(es, ranges, prev, curr);
    var render := PREFIX_CONTEXT + PathLines(path) + text;
    NeverBlank(render);
    if Trim(render) == "" {
      out := Unchanged;
    } else {
      out := Changed(render, added, removed);
    }
  }

  // ----- hunks hide nothing ------------------------------------------------------------------------

  lemma {:induction false} ContextHasNoCounts(es: seq<Entry>)
    requires AllContext(es)
    ensures AddedCount(es) == RemovedCount(es) == 0
  {
    if es != [] {
      ContextHasNoCounts(es[1..]);
    }
  }

  function PiecesAdded(pieces: seq<Piece>): nat {
    if pieces == [] then 0 else AddedCount(pieces[0].hunk) + PiecesAdded(pieces[1..])
  }

  function PiecesRemoved(pieces: seq<Piece>): nat {
    if pieces == [] then 0 else RemovedCount(pieces[0].hunk) + PiecesRemoved(pieces[1..])
  }

  lemma {:induction false} PiecesCountAll(pieces: seq<Piece>, tail: seq<Entry>, first: bool)
    requires Shaped(pieces, first) && AllContext(tail)
    ensures AddedCount(Script(pieces, tail)) == PiecesAdded(pieces)
    ensures RemovedCount(Script(pieces, tail)) == PiecesRemoved(pieces)
  {
    if pieces == [] {
      ContextHasNoCounts(tail);
    } else {
      var rest := Script(pieces[1..], tail);
      PiecesCountAll(pieces[1..], tail, false);
      ContextHasNoCounts(pieces[0].gap);
      CountsAppend(pieces[0].gap, pieces[0].hunk + rest);
      CountsAppend(pieces[0].hunk, rest);
    }
  }

  lemma {:induction false} RangesCountPieces(es: seq<Entry>, ranges: seq<Range>, i: nat)
    requires Follow(ranges, i, |es|)
    ensures HunksAdded(es, ranges) == PiecesAdded(Pieces(es, ranges, i))
    ensures HunksRemoved(es, ranges) == PiecesRemoved(Pieces(es, ranges, i))
  {
    if ranges != [] {
      var r := ranges[0];
      RangesCountPieces(es, ranges[1..], r.end);
      var pieces := Pieces(es, ranges, i);
      assert pieces[0] == Piece(es[i..r.start], es[r.start..r.end]);
      assert pieces[1..] == Pieces(es, ranges[1..], r.end);
    }
  }

  /** The counts a context diff reports are the counts of the whole entry list. */
  lemma HunksCountEverything(es: seq<Entry>, ctx: nat)
    ensures HunksAdded(es, RangesOf(es, ctx)) == AddedCount(es)
    ensures HunksRemoved(es, RangesOf(es, ctx)) == RemovedCount(es)
  {
    var ranges := RangesOf(es, ctx);
    CutAtRanges(es, ctx);
    RangesCountPieces(es, ranges, 0);
    PiecesCountAll(Pieces(es, ranges, 0), TailOf(es, ranges, 0), true);
  }
}
