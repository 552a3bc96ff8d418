/** `render_side_by_side` of crates/config-diff/src/difftastic.rs, and how its walk relates to the
    walk of the other renderers. */
module SideBySide {
  import opened Options
  import opened EditScripts
  import opened LineWalk
  import opened DiffText
  import opened Rendering

  datatype SideRow =
    | Equal(prevLn: nat, currLn: nat)
    | Modified(prevLn: nat, currLn: nat)
    | LeftOnly(prevLn: nat)
    | RightOnly(currLn: nat)

  /** The edit script a row stands for. */
  function RowScript(row: SideRow): seq<Entry> {
    match row
    case Equal(p, c) => [Context(p, c)]
    case Modified(p, c) => [Removed(p), Added(c)]
    case LeftOnly(p) => [Removed(p)]
    case RightOnly(c) => [Added(c)]
  }

  function ScriptOf(rows: seq<SideRow>): seq<Entry> {
    if rows == [] then [] else RowScript(rows[0]) + ScriptOf(rows[1..])
  }

  // ----- the walk -------------------------------------------------------------------------------

  function EqualRun(p: nat, c: nat, pTarget: nat, cTarget: nat, np: nat, nc: nat): seq<SideRow>
    decreases pTarget - p
  {
    if p < pTarget && c < cTarget then
      (if p < np && c < nc then [Equal(p, c)] else []) + EqualRun(p + 1, c + 1, pTarget, cTarget, np, nc)
    else []
  }

  function ChangeRows(ch: LineChange, np: nat, nc: nat): seq<SideRow> {
    match (ch.prevLine, ch.currLine)
    case (Some(pl), Some(cl)) => if pl < np && cl < nc then [Modified(pl, cl)] else []
    case (Some(pl), None) => if pl < np then [LeftOnly(pl)] else []
    case (None, Some(cl)) => if cl < nc then [RightOnly(cl)] else []
    case (None, None) => []
  }

  /** Unlike the other renderers, this one always moves the pointer just past a named line. */
  function Reset(pointer: nat, line: Option<nat>): nat {
    if line.Some? then line.value + 1 else pointer
  }

  function SidePrev(ch: LineChange, p: nat, c: nat, np: nat, nc: nat): nat {
    Reset(p + RunBefore(ch, p, c, np, nc), ch.prevLine)
  }

  function SideCurr(ch: LineChange, p: nat, c: nat, np: nat, nc: nat): nat {
    Reset(c + RunBefore(ch, p, c, np, nc), ch.currLine)
  }

  function SideSegment(ch: LineChange, p: nat, c: nat, np: nat, nc: nat): seq<SideRow> {
    EqualRun(p, c, Target(ch.prevLine, np), Target(ch.currLine, nc), np, nc) + ChangeRows(ch, np, nc)
  }

  function SideWalk(changes: seq<LineChange>, p: nat, c: nat, np: nat, nc: nat): seq<SideRow> {
    if changes == [] then EqualRun(p, c, np, nc, np, nc)
    else
      var ch := changes[0];
      SideSegment(ch, p, c, np, nc)
        + SideWalk(changes[1..], SidePrev(ch, p, c, np, nc), SideCurr(ch, p, c, np, nc), np, nc)
  }

  // ----- rows as text ---------------------------------------------------------------------------

  function Truncate(s: string, width: nat): string {
    if |s| <= width then s else s[..width]
  }

  /** `{:<width$}`. */
  function PadRight(s: string, width: nat): string {
    if |s| < width then s + Spaces(width - |s|) else s
  }

  function Columns(left: string, right: string, width: nat): string {
    PadRight(Truncate(left, width), width) + " | " + PadRight(Truncate(right, width), width) + "\n"
  }

  function RowText(row: SideRow, prev: Lines, curr: Lines, width: nat): string {
    match row
    case Equal(p, c) => Columns(" " + LineAt(prev, p), " " + LineAt(curr, c), width)
    case Modified(p, c) => Columns("-" + LineAt(prev, p), "+" + LineAt(curr, c), width)
    case LeftOnly(p) => Columns("-" + LineAt(prev, p), "", width)
    case RightOnly(c) => Columns("", "+" + LineAt(curr, c), width)
  }

  function RowsText(rows: seq<SideRow>, prev: Lines, curr: Lines, width: nat): string {
    if rows == [] then "" else RowText(rows[0], prev, curr, width) + RowsText(rows[1..], prev, curr, width)
  }

  function Dashes(n: nat): string {
    seq(n, _ => '-')
  }

  function RowsAdded(rows: seq<SideRow>): nat {
    if rows == [] then 0 else (if rows[0].Modified? || rows[0].RightOnly? then 1 else 0) + RowsAdded(rows[1..])
  }

  function RowsRemoved(rows: seq<SideRow>): nat {
    if rows == [] then 0 else (if rows[0].Modified? || rows[0].LeftOnly? then 1 else 0) + RowsRemoved(rows[1..])
  }

  function SideHeader(path: string, width: nat): string
    requires width >= 3
  {
    var col := (width - 3) / 2;
    PREFIX_SIDE_BY_SIDE + PathLines(path)
    + (PadRight("previous", col) + " | " + PadRight("current", col) + "\n")
    + (Dashes(width) + "\n")
  }

  /** The renderer gets as far as subtracting 3 from a width that is smaller. */
  predicate Underflows(report: Report, width: nat) {
    width < 3 && report.status == "changed" && !NamesNoLine(AllChanges(report.chunks))
  }

  function SideOutput(report: Report, prev: Lines, curr: Lines, path: string, width: nat): DiffOutput
    requires !Underflows(report, width)
  {
    if report.status == "unchanged" then Unchanged
    else if report.status != "changed" then Error("unexpected difftastic status: " + report.status)
    else
      var changes := AllChanges(report.chunks);
      if NamesNoLine(changes) then Unchanged
      else
        var rows := SideWalk(changes, 0, 0, |prev|, |curr|);
        Changed(SideHeader(path, width) + RowsText(rows, prev, curr, (width - 3) / 2), RowsAdded(rows),
                RowsRemoved(rows))
  }

  // ----- the method -----------------------------------------------------------------------------

  lemma {:induction false} RowsAppend(a: seq<SideRow>, b: seq<SideRow>)
    ensures RowsAdded(a + b) == RowsAdded(a) + RowsAdded(b)
    ensures RowsRemoved(a + b) == RowsRemoved(a) + RowsRemoved(b)
  {
    if a == [] {
      assert a + b == b;
    } else {
      assert (a + b)[0] == a[0] && (a + b)[1..] == a[1..] + b;
      RowsAppend(a[1..], b);
    }
  }

  lemma {:induction false} RowsTextAppend(a: seq<SideRow>, b: seq<SideRow>, prev: Lines, curr: Lines, width: nat)
    ensures RowsText(a + b, prev, curr, width) == RowsText(a, prev, curr, width) + RowsText(b, prev, curr, width)
  {
    if a == [] {
      assert a + b == b;
    } else {
      assert (a + b)[0] == a[0] && (a + b)[1..] == a[1..] + b;
      RowsTextAppend(a[1..], b, prev, curr, width);
    }
  }

  lemma EqualRunStep(text: string, p: nat, c: nat, pt: nat, ct: nat, prev: Lines, curr: Lines, width: nat)
    requires p < pt && c < ct
    ensures
      text + RowsText(EqualRun(p, c, pt, ct, |prev|, |curr|), prev, curr, width)
      == (if p < |prev| && c < |curr| then text + Columns(" " + prev[p], " " + curr[c], width) else text)
         + RowsText(EqualRun(p + 1, c + 1, pt, ct, |prev|, |curr|), prev, curr, width)
  {
    var run, rest := EqualRun(p, c, pt, ct, |prev|, |curr|), EqualRun(p + 1, c + 1, pt, ct, |prev|, |curr|);
    if p < |prev| && c < |curr| {
      assert run[0] == Equal(p, c) && run[1..] == rest;
    } else {
      assert run == rest;
    }
  }

  method SideContext(p0: nat, c0: nat, pTarget: nat, cTarget: nat, prev: Lines, curr: Lines, width: nat)
    returns (text: string, p: nat, c: nat)
    ensures text == RowsText(EqualRun(p0, c0, pTarget, cTarget, |prev|, |curr|), prev, curr, width)
    ensures p == p0 + RunLength(p0, c0, pTarget, cTarget)
    ensures c == c0 + RunLength(p0, c0, pTarget, cTarget)
  {
    text, p, c := "", p0, c0;
    ghost var all := RowsText(EqualRun(p0, c0, pTarget, cTarget, |prev|, |curr|), prev, curr, width);
    ghost var todo, left := all, RunLength(p0, c0, pTarget, cTarget);
    while p < pTarget && c < cTarget
      invariant todo == RowsText(EqualRun(p, c, pTarget, cTarget, |prev|, |curr|), prev, curr, width)
                && text + todo == all
      invariant left == RunLength(p, c, pTarget, cTarget)
      invariant p + left == p0 + RunLength(p0, c0, pTarget, cTarget)
                && c + left == c0 + RunLength(p0, c0, pTarget, cTarget)
      decreases pTarget - p
    {
      RunLengthStep(p, c, pTarget, cTarget);
      EqualRunStep(text, p, c, pTarget, cTarget, prev, curr, width);
      if p < |prev| && c < |curr| {
        text := text + Columns(" " + prev[p], " " + curr[c], width);
      }
      p, c := p + 1, c + 1;
      todo, left := RowsText(EqualRun(p, c, pTarget, cTarget, |prev|, |curr|), prev, curr, width),
        RunLength(p, c, pTarget, cTarget);
    }
  }

  lemma OneRow(row: SideRow, prev: Lines, curr: Lines, width: nat)
    ensures RowsText([row], prev, curr, width) == RowText(row, prev, curr, width)
    ensures RowsAdded([row]) == (if row.Modified? || row.RightOnly? then 1 else 0)
    ensures RowsRemoved([row]) == (if row.Modified? || row.LeftOnly? then 1 else 0)
  {
    assert [row][1..] == [];
  }

  /** The `match` that emits one change as a row and resets the pointers. */
  method SideChange(ch: LineChange, p0: nat, c0: nat, prev: Lines, curr: Lines, width: nat)
    returns (text: string, added: nat, removed: nat, p: nat, c: nat)
    ensures text == RowsText(ChangeRows(ch, |prev|, |curr|), prev, curr, width)
    ensures added == RowsAdded(ChangeRows(ch, |prev|, |curr|))
    ensures removed == RowsRemoved(ChangeRows(ch, |prev|, |curr|))
    ensures p == Reset(p0, ch.prevLine) && c == Reset(c0, ch.currLine)
  {
    text, added, removed, p, c := "", 0, 0, p0, c0;
    match (ch.prevLine, ch.currLine)
    case (Some(pl), Some(cl)) =>
      if pl < |prev| && cl < |curr| {
        OneRow(Modified(pl, cl), prev, curr, width);
        text := Columns("-" + prev[pl], "+" + curr[cl], width);
        removed, added := removed + 1, added + 1;
      }
      p := pl + 1;
      c := cl + 1;
    case (Some(pl), None) =>
      if pl < |prev| {
        OneRow(LeftOnly(pl), prev, curr, width);
        text := Columns("-" + prev[pl], "", width);
        removed := removed + 1;
      }
      p := pl + 1;
    case (None, Some(cl)) =>
      if cl < |curr| {
        OneRow(RightOnly(cl), prev, curr, width);
        text := Columns("", "+" + curr[cl], width);
        added := added + 1;
      }
      c := cl + 1;
    case (None, None) =>
  }

  lemma {:induction false} EqualRunCounts(p: nat, c: nat, pt: nat, ct: nat, np: nat, nc: nat)
    ensures RowsAdded(EqualRun(p, c, pt, ct, np, nc)) == RowsRemoved(EqualRun(p, c, pt, ct, np, nc)) == 0
    decreases pt - p
  {
    if p < pt && c < ct {
      EqualRunCounts(p + 1, c + 1, pt, ct, np, nc);
      var run, rest := EqualRun(p, c, pt, ct, np, nc), EqualRun(p + 1, c + 1, pt, ct, np, nc);
      if p < np && c < nc {
        assert run[0] == Equal(p, c) && run[1..] == rest;
      } else {
        assert run == rest;
      }
    }
  }

  method SideLoop(changes: seq<LineChange>, prev: Lines, curr: Lines, width: nat)
    returns (text: string, added: nat, removed: nat)
    ensures
      var rows := SideWalk(changes, 0, 0, |prev|, |curr|);
      text == RowsText(rows, prev, curr, width) && added == RowsAdded(rows) && removed == RowsRemoved(rows)
  {
    ghost var np, nc := |prev|, |curr|;
    ghost var done: seq<SideRow> := [];
    var p: nat, c: nat := 0, 0;
    text, added, removed := "", 0, 0;
    for i := 0 to |changes|
      invariant done + SideWalk(changes[i..], p, c, np, nc) == SideWalk(changes, 0, 0, np, nc)
      invariant text == RowsText(done, prev, curr, width)
      invariant added == RowsAdded(done) && removed == RowsRemoved(done)
    {
      var ch := changes[i];
      assert changes[i..][0] == ch && changes[i..][1..] == changes[i + 1..];
      SideStep(done, changes[i..], p, c, np, nc);
      ghost var seg := SideSegment(ch, p, c, np, nc);
      var segText, a, r;
      segText, a, r, p, c := SideSegmentText(ch, p, c, prev, curr, width);
      text, added, removed := text + segText, added + a, removed + r;
      RowsTextAppend(done, seg, prev, curr, width);
      RowsAppend(done, seg);
      done := done + seg;
    }
    assert changes[|changes|..] == [];
    ghost var run := EqualRun(p, c, np, nc, np, nc);
    assert done + run == SideWalk(changes, 0, 0, np, nc);
    EqualRunCounts(p, c, np, nc, np, nc);
    RowsTextAppend(done, run, prev, curr, width);
    RowsAppend(done, run);
    var rest;
    rest, p, c := SideContext(p, c, |prev|, |curr|, prev, curr, width);
    text := text + rest;
  }

  lemma SideStep(done: seq<SideRow>, changes: seq<LineChange>, p: nat, c: nat, np: nat, nc: nat)
    requires changes != []
    ensures
      var ch := changes[0];
      done + SideWalk(changes, p, c, np, nc)
      == (done + SideSegment(ch, p, c, np, nc))
         + SideWalk(changes[1..], SidePrev(ch, p, c, np, nc), SideCurr(ch, p, c, np, nc), np, nc)
  {
    var ch := changes[0];
    var segment := SideSegment(ch, p, c, np, nc);
    var rest := SideWalk(changes[1..], SidePrev(ch, p, c, np, nc), SideCurr(ch, p, c, np, nc), np, nc);
    RowsRegroup(done, segment, rest);
  }

  lemma RowsRegroup(a: seq<SideRow>, b: seq<SideRow>, c: seq<SideRow>)
    ensures a + (b + c) == (a + b) + c
  {
  }

  method SideSegmentText(ch: LineChange, p0: nat, c0: nat, prev: Lines, curr: Lines, width: nat)
    returns (text: string, added: nat, removed: nat, p: nat, c: nat)
    ensures
      var seg := SideSegment(ch, p0, c0, |prev|, |curr|);
      text == RowsText(seg, prev, curr, width) && added == RowsAdded(seg) && removed == RowsRemoved(seg)
    ensures p == SidePrev(ch, p0, c0, |prev|, |curr|) && c == SideCurr(ch, p0, c0, |prev|, |curr|)
  {
    ghost var pt, ct := Target(ch.prevLine, |prev|), Target(ch.currLine, |curr|);
    ghost var run := EqualRun(p0, c0, pt, ct, |prev|, |curr|);
    RowsTextAppend(run, ChangeRows(ch, |prev|, |curr|), prev, curr, width);
    RowsAppend(run, ChangeRows(ch, |prev|, |curr|));
    EqualRunCounts(p0, c0, pt, ct, |prev|, |curr|);
    text, p, c := SideContext(p0, c0, Target(ch.prevLine, |prev|), Target(ch.currLine, |curr|), prev, curr, width);
    var row;
    row, added, removed, p, c := SideChange(ch, p, c, prev, curr, width);
    text := text + row;
  }

  /** `render_side_by_side`.  There is no result when `width - 3` underflows. */
  method RenderSideBySide(report: Report, prev: Lines, curr: Lines, path: string, width: nat)
    returns (out: Option<DiffOutput>)
    ensures out == if Underflows(report, width) then None else Some(SideOutput(report, prev, curr, path, width))
  {
    if report.status == "unchanged" {
      return Some(Unchanged);
    }
    if report.status != "changed" {
      return Some(Error("unexpected difftastic status: " + report.status));
    }
    var changes := CollectLineChanges(report.chunks);
    var changedCurr, changedPrev := ChangedSets(changes);
    if changedCurr == {} && changedPrev == {} {
      return Some(Unchanged);
    }
    if width < 3 {
      return None;
    }
    var col := (width - 3) / 2;
    var render := SideHeader(path, width);
    var text, added, removed := SideLoop(changes, prev, curr, col);
    render := render + text;
    NeverBlank(render);
    if Trim(render) == "" {
      out := Some(Unchanged);
    } else {
      out := Some(Changed(render, added, removed));
    }
  }

  // ----- the same script as the other renderers ---------------------------------------------------

  /** When its change is reached, a named line lies at most one line behind the walk's pointer. */
  predicate NotPast(ch: LineChange, p: nat, c: nat, np: nat, nc: nat) {
    var k := RunBefore(ch, p, c, np, nc);
    && (ch.prevLine.Some? ==> p + k <= ch.prevLine.value + 1)
    && (ch.currLine.Some? ==> c + k <= ch.currLine.value + 1)
  }

  predicate NeverPast(changes: seq<LineChange>, p: nat, c: nat, np: nat, nc: nat) {
    changes == [] ||
    (NotPast(changes[0], p, c, np, nc)
     && NeverPast(changes[1..], NextPrev(changes[0], p, c, np, nc), NextCurr(changes[0], p, c, np, nc), np, nc))
  }

  /** Both walks leave every change with the same pointers. */
  predicate SamePath(changes: seq<LineChange>, p: nat, c: nat, np: nat, nc: nat) {
    changes == [] ||
    (var ch := changes[0];
     && SidePrev(ch, p, c, np, nc) == NextPrev(ch, p, c, np, nc)
     && SideCurr(ch, p, c, np, nc) == NextCurr(ch, p, c, np, nc)
     && SamePath(changes[1..], NextPrev(ch, p, c, np, nc), NextCurr(ch, p, c, np, nc), np, nc))
  }

  lemma SamePointersIffNotPast(ch: LineChange, p: nat, c: nat, np: nat, nc: nat)
    requires ChangeInRange(ch, np, nc)
    ensures SidePrev(ch, p, c, np, nc) <= NextPrev(ch, p, c, np, nc)
    ensures SideCurr(ch, p, c, np, nc) <= NextCurr(ch, p, c, np, nc)
    ensures (SidePrev(ch, p, c, np, nc) == NextPrev(ch, p, c, np, nc)
             && SideCurr(ch, p, c, np, nc) == NextCurr(ch, p, c, np, nc)) <==> NotPast(ch, p, c, np, nc)
  {
  }

  /** On every in-range change list, the unconditional reset and the guarded advance lead both walks
      through the same pointers if and only if no change names a line more than one behind them. */
  lemma {:induction false} SamePathIffNeverPast(changes: seq<LineChange>, p: nat, c: nat, np: nat, nc: nat)
    requires InRange(changes, np, nc)
    ensures SamePath(changes, p, c, np, nc) <==> NeverPast(changes, p, c, np, nc)
  {
    if changes != [] {
      var ch := changes[0];
      assert ChangeInRange(ch, np, nc);
      SamePointersIffNotPast(ch, p, c, np, nc);
      SamePathIffNeverPast(changes[1..], NextPrev(ch, p, c, np, nc), NextCurr(ch, p, c, np, nc), np, nc);
    }
  }

  lemma {:induction false} ScriptAppend(a: seq<SideRow>, b: seq<SideRow>)
    ensures ScriptOf(a + b) == ScriptOf(a) + ScriptOf(b)
  {
    if a == [] {
      assert a + b == b;
    } else {
      assert (a + b)[0] == a[0] && (a + b)[1..] == a[1..] + b;
      ScriptAppend(a[1..], b);
    }
  }

  lemma {:induction false} EqualRunScript(p: nat, c: nat, pt: nat, ct: nat, np: nat, nc: nat)
    ensures ScriptOf(EqualRun(p, c, pt, ct, np, nc)) == ContextRun(p, c, pt, ct, np, nc)
    decreases pt - p
  {
    if p < pt && c < ct {
      EqualRunScript(p + 1, c + 1, pt, ct, np, nc);
      var run, rest := EqualRun(p, c, pt, ct, np, nc), EqualRun(p + 1, c + 1, pt, ct, np, nc);
      if p < np && c < nc {
        assert run == [Equal(p, c)] + rest;
        ScriptAppend([Equal(p, c)], rest);
        assert ScriptOf([Equal(p, c)]) == [Context(p, c)] by {
          assert [Equal(p, c)][1..] == [];
        }
      } else {
        assert run == rest;
      }
    }
  }

  lemma ChangeRowsScript(ch: LineChange, np: nat, nc: nat)
    requires ChangeInRange(ch, np, nc)
    ensures ScriptOf(ChangeRows(ch, np, nc)) == ChangeEntries(ch, np, nc)
  {
    var rows := ChangeRows(ch, np, nc);
    assert |rows| == 1 && rows[1..] == [];
  }

  lemma SideSegmentScript(ch: LineChange, p: nat, c: nat, np: nat, nc: nat)
    requires ChangeInRange(ch, np, nc)
    ensures ScriptOf(SideSegment(ch, p, c, np, nc)) == Segment(ch, p, c, np, nc)
  {
    var pt, ct := Target(ch.prevLine, np), Target(ch.currLine, nc);
    ScriptAppend(EqualRun(p, c, pt, ct, np, nc), ChangeRows(ch, np, nc));
    EqualRunScript(p, c, pt, ct, np, nc);
    ChangeRowsScript(ch, np, nc);
  }

  lemma {:induction false} RunIsContext(p: nat, c: nat, pt: nat, ct: nat, np: nat, nc: nat)
    requires pt <= np && ct <= nc
    ensures
      var run := ContextRun(p, c, pt, ct, np, nc);
      |run| == RunLength(p, c, pt, ct) && AllContext(run) && (run != [] ==> run[0] == Context(p, c))
    decreases pt - p
  {
    if p < pt && c < ct {
      RunIsContext(p + 1, c + 1, pt, ct, np, nc);
    }
  }

  /** Two walks show the same context before a change: none, or from the same pointers. */
  predicate SameRun(p: nat, c: nat, p': nat, c': nat, pt: nat, ct: nat) {
    (RunLength(p, c, pt, ct) == 0 && RunLength(p', c', pt, ct) == 0) || (p == p' && c == c')
  }

  /** The same before every change and at the end, for the walk from p and c and the side-by-side walk
      from p' and c'. */
  predicate SameRuns(changes: seq<LineChange>, p: nat, c: nat, p': nat, c': nat, np: nat, nc: nat) {
    if changes == [] then SameRun(p, c, p', c', np, nc)
    else
      var ch := changes[0];
      && SameRun(p, c, p', c', Target(ch.prevLine, np), Target(ch.currLine, nc))
      && SameRuns(changes[1..], NextPrev(ch, p, c, np, nc), NextCurr(ch, p, c, np, nc),
                  SidePrev(ch, p', c', np, nc), SideCurr(ch, p', c', np, nc), np, nc)
  }

  lemma RunsEqualIff(p: nat, c: nat, p': nat, c': nat, pt: nat, ct: nat, np: nat, nc: nat)
    requires pt <= np && ct <= nc
    ensures ContextRun(p, c, pt, ct, np, nc) == ContextRun(p', c', pt, ct, np, nc) <==> SameRun(p, c, p', c', pt, ct)
  {
    RunIsContext(p, c, pt, ct, np, nc);
    RunIsContext(p', c', pt, ct, np, nc);
  }

  /** Where the first change follows the context, it can be told apart from it. */
  lemma SplitAtChange(a: seq<Entry>, b: seq<Entry>, x: seq<Entry>, r: seq<Entry>, r': seq<Entry>)
    requires AllContext(a) && AllContext(b) && x != [] && !x[0].Context?
    ensures a + x + r == b + x + r' <==> a == b && r == r'
  {
    var s, t := a + x + r, b + x + r';
    assert s[|a|] == x[0] && t[|b|] == x[0];
    assert forall i :: 0 <= i < |a| ==> s[i] == a[i];
    assert forall i :: 0 <= i < |b| ==> t[i] == b[i];
    if s == t {
      if |a| < |b| {
        EachIsContext(b, |a|);
      } else if |b| < |a| {
        EachIsContext(a, |b|);
      }
      assert |a| == |b|;
      assert a == s[..|a|] && b == t[..|b|];
      assert r == s[|a| + |x|..] && r' == t[|b| + |x|..];
    }
  }

  lemma SegmentSplits(ch: LineChange, p: nat, c: nat, p': nat, c': nat, np: nat, nc: nat, r: seq<Entry>, r': seq<Entry>)
    requires ChangeInRange(ch, np, nc)
    ensures Segment(ch, p, c, np, nc) + r == Segment(ch, p', c', np, nc) + r'
            <==> SameRun(p, c, p', c', Target(ch.prevLine, np), Target(ch.currLine, nc)) && r == r'
  {
    var pt, ct := Target(ch.prevLine, np), Target(ch.currLine, nc);
    RunIsContext(p, c, pt, ct, np, nc);
    RunIsContext(p', c', pt, ct, np, nc);
    RunsEqualIff(p, c, p', c', pt, ct, np, nc);
    SplitAtChange(ContextRun(p, c, pt, ct, np, nc), ContextRun(p', c', pt, ct, np, nc), ChangeEntries(ch, np, nc),
                  r, r');
  }

  /** On every in-range change list, the side-by-side rows stand for exactly the entries that the context
      and full-file renderers walk if and only if wherever one of the walks shows context, both do, from
      the same lines. */
  lemma {:induction false} ScriptsAgreeIff(changes: seq<LineChange>, p: nat, c: nat, p': nat, c': nat, np: nat, nc: nat)
    requires InRange(changes, np, nc)
    ensures ScriptOf(SideWalk(changes, p', c', np, nc)) == Walk(changes, p, c, np, nc)
            <==> SameRuns(changes, p, c, p', c', np, nc)
  {
    if changes == [] {
      EqualRunScript(p', c', np, nc, np, nc);
      RunsEqualIff(p, c, p', c', np, nc, np, nc);
    } else {
      var ch, rest := changes[0], changes[1..];
      assert ChangeInRange(ch, np, nc);
      var pw, cw := NextPrev(ch, p, c, np, nc), NextCurr(ch, p, c, np, nc);
      var ps, cs := SidePrev(ch, p', c', np, nc), SideCurr(ch, p', c', np, nc);
      ScriptsAgreeIff(rest, pw, cw, ps, cs, np, nc);
      SideSegmentScript(ch, p', c', np, nc);
      ScriptAppend(SideSegment(ch, p', c', np, nc), SideWalk(rest, ps, cs, np, nc));
      SegmentSplits(ch, p, c, p', c', np, nc, Walk(rest, pw, cw, np, nc), ScriptOf(SideWalk(rest, ps, cs, np, nc)));
    }
  }

  lemma {:induction false} SamePathRuns(changes: seq<LineChange>, p: nat, c: nat, np: nat, nc: nat)
    requires SamePath(changes, p, c, np, nc)
    ensures SameRuns(changes, p, c, p, c, np, nc)
  {
    if changes != [] {
      SamePathRuns(changes[1..], NextPrev(changes[0], p, c, np, nc), NextCurr(changes[0], p, c, np, nc), np, nc);
    }
  }

  /** The same entries, whenever no change names a line more than one behind the pointers. */
  lemma SameScript(changes: seq<LineChange>, p: nat, c: nat, np: nat, nc: nat)
    requires InRange(changes, np, nc) && NeverPast(changes, p, c, np, nc)
    ensures ScriptOf(SideWalk(changes, p, c, np, nc)) == Walk(changes, p, c, np, nc)
  {
    SamePathIffNeverPast(changes, p, c, np, nc);
    SamePathRuns(changes, p, c, np, nc);
    ScriptsAgreeIff(changes, p, c, p, c, np, nc);
  }

  /** When the pointers part at the last change of a list, the rows differ if and only if the side-by-side
      pointers moved back to a line that is shown again. */
  lemma LastChangePastDiffersIff(ch: LineChange, p: nat, c: nat, np: nat, nc: nat)
    requires ChangeInRange(ch, np, nc) && !NotPast(ch, p, c, np, nc)
    ensures ScriptOf(SideWalk([ch], p, c, np, nc)) != Walk([ch], p, c, np, nc)
            <==> SidePrev(ch, p, c, np, nc) < np && SideCurr(ch, p, c, np, nc) < nc
  {
    SamePointersIffNotPast(ch, p, c, np, nc);
    assert InRange([ch], np, nc);
    ScriptsAgreeIff([ch], p, c, p, c, np, nc);
    assert [ch][1..] == [];
  }

  lemma {:induction false} FaithfulNeverPast(changes: seq<LineChange>, p: nat, c: nat, prev: Lines, curr: Lines)
    requires p <= |prev| && c <= |curr| && FaithfulFrom(changes, p, c, prev, curr)
    ensures NeverPast(changes, p, c, |prev|, |curr|)
  {
    if changes != [] {
      var ch := changes[0];
      HeadIffLands(ch, p, c, RunBefore(ch, p, c, |prev|, |curr|), prev, curr);
      FaithfulNeverPast(changes[1..], PrevAfter(ch, p, c), CurrAfter(ch, p, c), prev, curr);
    }
  }

  /** For a faithful change list the two-column rows are an edit script from previous to current. */
  lemma SideRowsAreEditScript(changes: seq<LineChange>, prev: Lines, curr: Lines)
    requires Faithful(changes, prev, curr)
    ensures ScriptOf(SideWalk(changes, 0, 0, |prev|, |curr|)) == Walk(changes, 0, 0, |prev|, |curr|)
    ensures IsEditScript(ScriptOf(SideWalk(changes, 0, 0, |prev|, |curr|)), prev, curr)
  {
    FaithfulNeverPast(changes, 0, 0, prev, curr);
    FaithfulInRange(changes, 0, 0, prev, curr);
    SameScript(changes, 0, 0, |prev|, |curr|);
    EditScriptIffFaithful(changes, prev, curr);
  }

  /** An instance: the second change names line 0 after the first has passed line 1. The side-by-side walk
      goes back and shows line 1 as context, the other walks do not. */
  lemma BackwardListsDiffer(first: LineChange, back: LineChange, n: nat)
    requires first == LineChange(Some(1), Some(0)) && back == LineChange(Some(0), None) && n == 2
    ensures InRange([first, back], n, n) && !NeverPast([first, back], 0, 0, n, n)
    ensures ScriptOf(SideWalk([first, back], 0, 0, n, n)) != Walk([first, back], 0, 0, n, n)
  {
    assert [first, back][1..] == [back] && [back][1..] == [];
    assert RunBefore(first, 0, 0, n, n) == 0 && RunBefore(back, n, 1, n, n) == 0;
    assert !NotPast(back, n, 1, n, n);
    ScriptsAgreeIff([first, back], 0, 0, 0, 0, n, n);
    assert !SameRun(n, 1, 1, 1, n, n);
    assert !SameRuns([], n, 1, 1, 1, n, n);
    assert !SameRuns([back], n, 1, n, 1, n, n);
  }

  /** Naming an earlier line is harmless when it is the line just passed. */
  lemma LineJustPassedAgrees(first: LineChange, again: LineChange, n: nat)
    requires first == LineChange(Some(0), Some(0)) && again == LineChange(Some(0), Some(1)) && n == 2
    ensures InRange([first, again], n, n)
    ensures ScriptOf(SideWalk([first, again], 0, 0, n, n)) == Walk([first, again], 0, 0, n, n)
  {
    assert [first, again][1..] == [again] && [again][1..] == [];
    assert NotPast(first, 0, 0, n, n) && NotPast(again, 1, 1, n, n);
    assert NeverPast([again], 1, 1, n, n);
    SameScript([first, again], 0, 0, n, n);
  }
}
