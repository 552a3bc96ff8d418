/** The structured renderers of crates/config-diff/src/difftastic.rs, as text and counts.
    Each renderer is a method over a growing `render` buffer, proved equal to a function of the
    change list; what the functions mean is proved in the modules built on this one. */
module Rendering {
  import opened Options
  import opened EditScripts
  import opened LineWalk
  import opened DiffText
  import opened Patches

  datatype DiffOutput =
    | Unchanged
    | Changed(render: string, added: nat, removed: nat)
    | Error(message: string)

  const PREFIX_UNIFIED: string := "@@format:unified@@\n"
  const PREFIX_CONTEXT: string := "@@format:context@@\n"
  const PREFIX_FULL_FILE: string := "@@format:full_file@@\n"
  const PREFIX_SIDE_BY_SIDE: string := "@@format:side_by_side@@\n"

  /** Difftastic's verdict on two files. */
  datatype Report = Report(status: string, chunks: seq<seq<Chunk>>)

  // ----- entries as text ------------------------------------------------------------------------

  function PathLines(path: string): string {
    "--- " + path + "\n" + ("+++ " + path + "\n")
  }

  function EntryLine(e: Entry, prev: Lines, curr: Lines): string {
    PrintRow(RowOf(e, prev, curr)) + "\n"
  }

  /** The renderers' `"{:>4} | -{}\n"` and its siblings; `mark` is one character. */
  function FormatLine(number: nat, mark: string, content: string): string {
    PadNumber(number) + " | " + mark + content + "\n"
  }

  lemma FormatsEntry(e: Entry, prev: Lines, curr: Lines)
    ensures EntryLine(e, prev, curr) ==
            match e
            case Context(_, c) => FormatLine(c + 1, " ", LineAt(curr, c))
            case Removed(p) => FormatLine(p + 1, "-", LineAt(prev, p))
            case Added(c) => FormatLine(c + 1, "+", LineAt(curr, c))
  {
  }

  function EntriesText(es: seq<Entry>, prev: Lines, curr: Lines): string {
    if es == [] then "" else EntryLine(es[0], prev, curr) + EntriesText(es[1..], prev, curr)
  }

  lemma {:induction false} EntriesTextAppend(a: seq<Entry>, b: seq<Entry>, prev: Lines, curr: Lines)
    ensures EntriesText(a + b, prev, curr) == EntriesText(a, prev, curr) + EntriesText(b, prev, curr)
  {
    if a == [] {
      assert a + b == b;
    } else {
      assert (a + b)[0] == a[0] && (a + b)[1..] == a[1..] + b;
      EntriesTextAppend(a[1..], b, prev, curr);
    }
  }

  lemma EntriesTextOne(e: Entry, prev: Lines, curr: Lines)
    ensures EntriesText([e], prev, curr) == EntryLine(e, prev, curr)
  {
    assert [e][1..] == [];
  }

  function RemovedCount(es: seq<Entry>): nat {
    if es == [] then 0 else (if es[0].Removed? then 1 else 0) + RemovedCount(es[1..])
  }

  function AddedCount(es: seq<Entry>): nat {
    if es == [] then 0 else (if es[0].Added? then 1 else 0) + AddedCount(es[1..])
  }

  lemma {:induction false} CountsAppend(a: seq<Entry>, b: seq<Entry>)
    ensures RemovedCount(a + b) == RemovedCount(a) + RemovedCount(b)
    ensures AddedCount(a + b) == AddedCount(a) + AddedCount(b)
  {
    if a == [] {
      assert a + b == b;
    } else {
      assert (a + b)[0] == a[0] && (a + b)[1..] == a[1..] + b;
      CountsAppend(a[1..], b);
    }
  }

  lemma CountsOne(e: Entry)
    ensures RemovedCount([e]) == (if e.Removed? then 1 else 0)
    ensures AddedCount([e]) == (if e.Added? then 1 else 0)
  {
    assert [e][1..] == [];
  }

  /** The walk names only lines that exist, whatever the change list. */
  lemma {:induction false} RunInBounds(p: nat, c: nat, pt: nat, ct: nat, np: nat, nc: nat)
    ensures InBounds(ContextRun(p, c, pt, ct, np, nc), np, nc)
    decreases pt - p
  {
    if p < pt && c < ct {
      RunInBounds(p + 1, c + 1, pt, ct, np, nc);
    }
  }

  lemma {:induction false} WalkInBounds(changes: seq<LineChange>, p: nat, c: nat, np: nat, nc: nat)
    ensures InBounds(Walk(changes, p, c, np, nc), np, nc)
  {
    if changes == [] {
      RunInBounds(p, c, np, nc, np, nc);
    } else {
      var ch := changes[0];
      RunInBounds(p, c, Target(ch.prevLine, np), Target(ch.currLine, nc), np, nc);
      WalkInBounds(changes[1..], NextPrev(ch, p, c, np, nc), NextCurr(ch, p, c, np, nc), np, nc);
    }
  }

  /** A rendering that starts with a format prefix is never blank. */
  lemma {:induction false} TrimEndKeepsFirst(s: string)
    requires s != "" && !IsWhitespace(s[0])
    ensures TrimEnd(s) != ""
    decreases |s|
  {
    if IsWhitespace(s[|s| - 1]) {
      TrimEndKeepsFirst(s[..|s| - 1]);
    }
  }

  lemma NeverBlank(render: string)
    requires render != "" && render[0] == '@'
    ensures Trim(render) != ""
  {
    TrimEndKeepsFirst(render);
  }

  // ----- full file ------------------------------------------------------------------------------

  predicate NamesNoLine(changes: seq<LineChange>) {
    forall i :: 0 <= i < |changes| ==> changes[i].prevLine.None? && changes[i].currLine.None?
  }

  function FullFileBody(changes: seq<LineChange>, prev: Lines, curr: Lines): seq<Entry> {
    Walk(changes, 0, 0, |prev|, |curr|)
  }

  function FullFileOutput(report: Report, prev: Lines, curr: Lines, path: string): DiffOutput {
    if report.status == "unchanged" then Unchanged
    else if report.status != "changed" then Error("unexpected difftastic status: " + report.status)
    else
      var changes := AllChanges(report.chunks);
      if NamesNoLine(changes) then Unchanged
      else
        var es := FullFileBody(changes, prev, curr);
        Changed(PREFIX_FULL_FILE + PathLines(path) + EntriesText(es, prev, curr), AddedCount(es), RemovedCount(es))
  }

  /** The two sets of changed lines; only their emptiness is used. */
  method ChangedSets(changes: seq<LineChange>) returns (changedCurr: set<nat>, changedPrev: set<nat>)
    ensures changedCurr == {} && changedPrev == {} <==> NamesNoLine(changes)
  {
    changedCurr, changedPrev := {}, {};
    for i := 0 to |changes|
      invariant changedCurr == {} && changedPrev == {} <==> NamesNoLine(changes[..i])
    {
      var ch := changes[i];
      if ch.currLine.Some? {
        changedCurr := changedCurr + {ch.currLine.value};
      }
      if ch.prevLine.Some? {
        changedPrev := changedPrev + {ch.prevLine.value};
      }
      assert changes[..i + 1][i] == ch && changes[..i + 1][..i] == changes[..i];
      assert ch.currLine.Some? ==> ch.currLine.value in changedCurr;
      assert ch.prevLine.Some? ==> ch.prevLine.value in changedPrev;
    }
    assert changes[..|changes|] == changes;
  }

  lemma {:induction false} RunCounts(p: nat, c: nat, pt: nat, ct: nat, np: nat, nc: nat)
    ensures AddedCount(ContextRun(p, c, pt, ct, np, nc)) == RemovedCount(ContextRun(p, c, pt, ct, np, nc)) == 0
    decreases pt - p
  {
    if p < pt && c < ct {
      RunCounts(p + 1, c + 1, pt, ct, np, nc);
      var run, rest := ContextRun(p, c, pt, ct, np, nc), ContextRun(p + 1, c + 1, pt, ct, np, nc);
      if p < np && c < nc {
        assert run == [Context(p, c)] + rest && run[0] == Context(p, c) && run[1..] == rest;
      } else {
        assert run == rest;
      }
    }
  }

  /** The inner loop of `render_full_file`. */
  method FullFileContext(p0: nat, c0: nat, pTarget: nat, cTarget: nat, prev: Lines, curr: Lines)
    returns (text: string, p: nat, c: nat)
    ensures text == EntriesText(ContextRun(p0, c0, pTarget, cTarget, |prev|, |curr|), prev, curr)
    ensures p == p0 + RunLength(p0, c0, pTarget, cTarget)
    ensures c == c0 + RunLength(p0, c0, pTarget, cTarget)
  {
    text, p, c := "", p0, c0;
    ghost var all := EntriesText(ContextRun(p0, c0, pTarget, cTarget, |prev|, |curr|), prev, curr);
    while p < pTarget && c < cTarget
      invariant text + EntriesText(ContextRun(p, c, pTarget, cTarget, |prev|, |curr|), prev, curr) == all
      invariant p + RunLength(p, c, pTarget, cTarget) == p0 + RunLength(p0, c0, pTarget, cTarget)
      invariant c + RunLength(p, c, pTarget, cTarget) == c0 + RunLength(p0, c0, pTarget, cTarget)
      decreases pTarget - p
    {
      RunLengthStep(p, c, pTarget, cTarget);
      RunTextStep(text, p, c, pTarget, cTarget, prev, curr);
      if p < |prev| && c < |curr| {
        text := text + FormatLine(c + 1, " ", curr[c]);
      }
      p, c := p + 1, c + 1;
    }
  }

  lemma RunTextStep(text: string, p: nat, c: nat, pt: nat, ct: nat, prev: Lines, curr: Lines)
    requires p < pt && c < ct
    ensures
      text + EntriesText(ContextRun(p, c, pt, ct, |prev|, |curr|), prev, curr)
      == (if p < |prev| && c < |curr| then text + FormatLine(c + 1, " ", curr[c]) else text)
         + EntriesText(ContextRun(p + 1, c + 1, pt, ct, |prev|, |curr|), prev, curr)
  {
    var run, rest := ContextRun(p, c, pt, ct, |prev|, |curr|), ContextRun(p + 1, c + 1, pt, ct, |prev|, |curr|);
    if p < |prev| && c < |curr| {
      assert run[0] == Context(p, c) && run[1..] == rest;
      FormatsEntry(run[0], prev, curr);
    } else {
      assert run == rest;
    }
  }

  function RemovedText(ch: LineChange, prev: Lines): string {
    if ch.prevLine.Some? && ch.prevLine.value < |prev|
    then FormatLine(ch.prevLine.value + 1, "-", prev[ch.prevLine.value]) else ""
  }

  function AddedText(ch: LineChange, curr: Lines): string {
    if ch.currLine.Some? && ch.currLine.value < |curr|
    then FormatLine(ch.currLine.value + 1, "+", curr[ch.currLine.value]) else ""
  }

  lemma ChangeText(ch: LineChange, prev: Lines, curr: Lines)
    ensures EntriesText(ChangeEntries(ch, |prev|, |curr|), prev, curr) == RemovedText(ch, prev) + AddedText(ch, curr)
  {
    var removed := if ch.prevLine.Some? && ch.prevLine.value < |prev| then [Removed(ch.prevLine.value)] else [];
    var added := if ch.currLine.Some? && ch.currLine.value < |curr| then [Added(ch.currLine.value)] else [];
    EntriesTextAppend(removed, added, prev, curr);
    assert EntriesText(removed, prev, curr) == RemovedText(ch, prev) by {
      if removed != [] {
        EntriesTextOne(removed[0], prev, curr);
        FormatsEntry(removed[0], prev, curr);
      }
    }
    assert EntriesText(added, prev, curr) == AddedText(ch, curr) by {
      if added != [] {
        EntriesTextOne(added[0], prev, curr);
        FormatsEntry(added[0], prev, curr);
      }
    }
  }

  lemma ChangeCounts(ch: LineChange, np: nat, nc: nat)
    ensures RemovedCount(ChangeEntries(ch, np, nc)) == (if ch.prevLine.Some? && ch.prevLine.value < np then 1 else 0)
    ensures AddedCount(ChangeEntries(ch, np, nc)) == (if ch.currLine.Some? && ch.currLine.value < nc then 1 else 0)
  {
    var removed := if ch.prevLine.Some? && ch.prevLine.value < np then [Removed(ch.prevLine.value)] else [];
    var added := if ch.currLine.Some? && ch.currLine.value < nc then [Added(ch.currLine.value)] else [];
    CountsAppend(removed, added);
    if removed != [] {
      CountsOne(removed[0]);
    }
    if added != [] {
      CountsOne(added[0]);
    }
  }

  /** The removed and the added line of one change, as every line-by-line renderer prints them. */
  method ChangeLines(ch: LineChange, prev: Lines, curr: Lines) returns (text: string, added: nat, removed: nat)
    ensures text == EntriesText(ChangeEntries(ch, |prev|, |curr|), prev, curr)
    ensures added == AddedCount(ChangeEntries(ch, |prev|, |curr|))
    ensures removed == RemovedCount(ChangeEntries(ch, |prev|, |curr|))
  {
    text, added, removed := "", 0, 0;
    if ch.prevLine.Some? {
      var pl := ch.prevLine.value;
      if pl < |prev| {
        text := text + FormatLine(pl + 1, "-", prev[pl]);
        removed := removed + 1;
      }
    }
    assert text == RemovedText(ch, prev);
    if ch.currLine.Some? {
      var cl := ch.currLine.value;
      if cl < |curr| {
        text := text + FormatLine(cl + 1, "+", curr[cl]);
        added := added + 1;
      }
    }
    ChangeText(ch, prev, curr);
    ChangeCounts(ch, |prev|, |curr|);
  }

  /** The body of its loop over the changes: context, removed line, added line, pointers. */
  method FullFileSegment(ch: LineChange, p0: nat, c0: nat, prev: Lines, curr: Lines)
    returns (text: string, added: nat, removed: nat, p: nat, c: nat)
    ensures text == EntriesText(Segment(ch, p0, c0, |prev|, |curr|), prev, curr)
    ensures added == AddedCount(Segment(ch, p0, c0, |prev|, |curr|))
    ensures removed == RemovedCount(Segment(ch, p0, c0, |prev|, |curr|))
    ensures p == NextPrev(ch, p0, c0, |prev|, |curr|) && c == NextCurr(ch, p0, c0, |prev|, |curr|)
  {
    text, p, c := FullFileContext(p0, c0, Target(ch.prevLine, |prev|), Target(ch.currLine, |curr|), prev, curr);
    var change;
    change, added, removed := ChangeLines(ch, prev, curr);
    text := text + change;
    if ch.prevLine.Some? && ch.prevLine.value < |prev| && p <= ch.prevLine.value {
      p := ch.prevLine.value + 1;
    }
    if ch.currLine.Some? && ch.currLine.value < |curr| && c <= ch.currLine.value {
      c := ch.currLine.value + 1;
    }
    SegmentText(ch, p0, c0, prev, curr);
    SegmentCounts(ch, p0, c0, |prev|, |curr|);
  }

  lemma SegmentText(ch: LineChange, p: nat, c: nat, prev: Lines, curr: Lines)
    ensures
      EntriesText(Segment(ch, p, c, |prev|, |curr|), prev, curr)
      == EntriesText(ContextRun(p, c, Target(ch.prevLine, |prev|), Target(ch.currLine, |curr|), |prev|, |curr|),
                     prev, curr)
         + EntriesText(ChangeEntries(ch, |prev|, |curr|), prev, curr)
  {
    EntriesTextAppend(ContextRun(p, c, Target(ch.prevLine, |prev|), Target(ch.currLine, |curr|), |prev|, |curr|),
                      ChangeEntries(ch, |prev|, |curr|), prev, curr);
  }

  lemma SegmentCounts(ch: LineChange, p: nat, c: nat, np: nat, nc: nat)
    ensures RemovedCount(Segment(ch, p, c, np, nc)) == RemovedCount(ChangeEntries(ch, np, nc))
    ensures AddedCount(Segment(ch, p, c, np, nc)) == AddedCount(ChangeEntries(ch, np, nc))
  {
    RunCounts(p, c, Target(ch.prevLine, np), Target(ch.currLine, nc), np, nc);
    CountsAppend(ContextRun(p, c, Target(ch.prevLine, np), Target(ch.currLine, nc), np, nc), ChangeEntries(ch, np, nc));
  }

  /** The loop over the changes and the remaining context. */
  method FullFileWalk(changes: seq<LineChange>, prev: Lines, curr: Lines)
    returns (text: string, added: nat, removed: nat)
    ensures
      var es := Walk(changes, 0, 0, |prev|, |curr|);
      text == EntriesText(es, prev, curr) && added == AddedCount(es) && removed == RemovedCount(es)
  {
    ghost var np, nc := |prev|, |curr|;
    ghost var done: seq<Entry> := [];
    var p: nat, c: nat := 0, 0;
    text, added, removed := "", 0, 0;
    for i := 0 to |changes|
      invariant done + Walk(changes[i..], p, c, np, nc) == Walk(changes, 0, 0, np, nc)
      invariant text == EntriesText(done, prev, curr)
      invariant added == AddedCount(done) && removed == RemovedCount(done)
    {
      var ch := changes[i];
      assert changes[i..][0] == ch && changes[i..][1..] == changes[i + 1..];
      WalkStep(done, changes[i..], p, c, np, nc);
      ghost var seg := Segment(ch, p, c, np, nc);
      var segText, a, r;
      segText, a, r, p, c := FullFileSegment(ch, p, c, prev, curr);
      text, added, removed := text + segText, added + a, removed + r;
      EntriesTextAppend(done, seg, prev, curr);
      CountsAppend(done, seg);
      done := done + seg;
    }
    assert changes[|changes|..] == [];
    ghost var run := ContextRun(p, c, np, nc, np, nc);
    RunCounts(p, c, np, nc, np, nc);
    EntriesTextAppend(done, run, prev, curr);
    CountsAppend(done, run);
    var rest;
    rest, p, c := FullFileContext(p, c, |prev|, |curr|, prev, curr);
    text := text + rest;
  }

  /** `render_full_file`. */
  method RenderFullFile(report: Report, prev: Lines, curr: Lines, path: string) returns (out: DiffOutput)
    ensures out == FullFileOutput(report, prev, curr, path)
  {
    if report.status == "unchanged" {
      return Unchanged;
    }
    if report.status != "changed" {
      return Error("unexpected difftastic status: " + report.status);
    }
    var changes := CollectLineChanges(report.chunks);
    var changedCurr, changedPrev := ChangedSets(changes);
    if changedCurr == {} && changedPrev == {} {
      return Unchanged;
    }
    var render := PREFIX_FULL_FILE + PathLines(path);
    var text, added, removed := FullFileWalk(changes, prev, curr);
    render := render + text;
    NeverBlank(render);
    if Trim(render) == "" {
      out := Unchanged;
    } else {
      out := Changed(render, added, removed);
    }
  }

  // ----- unified --------------------------------------------------------------------------------

  /** The changed lines alone, in change-list order. */
  function UnifiedBody(changes: seq<LineChange>, np: nat, nc: nat): seq<Entry> {
    if changes == [] then [] else ChangeEntries(changes[0], np, nc) + UnifiedBody(changes[1..], np, nc)
  }

  function UnifiedOutput(report: Report, prev: Lines, curr: Lines, path: string): DiffOutput {
    if report.status == "unchanged" then Unchanged
    else if report.status != "changed" then Error("unexpected difftastic status: " + report.status)
    else
      var es := UnifiedBody(AllChanges(report.chunks), |prev|, |curr|);
      Changed(PREFIX_UNIFIED + PathLines(path) + EntriesText(es, prev, curr), AddedCount(es), RemovedCount(es))
  }

  method UnifiedLoop(changes: seq<LineChange>, prev: Lines, curr: Lines)
    returns (text: string, added: nat, removed: nat)
    ensures
      var es := UnifiedBody(changes, |prev|, |curr|);
      text == EntriesText(es, prev, curr) && added == AddedCount(es) && removed == RemovedCount(es)
  {
    ghost var np, nc := |prev|, |curr|;
    ghost var done: seq<Entry> := [];
    text, added, removed := "", 0, 0;
    for i := 0 to |changes|
      invariant done + UnifiedBody(changes[i..], np, nc) == UnifiedBody(changes, np, nc)
      invariant text == EntriesText(done, prev, curr)
      invariant added == AddedCount(done) && removed == RemovedCount(done)
    {
      var ch := changes[i];
      assert changes[i..][0] == ch && changes[i..][1..] == changes[i + 1..];
      ghost var es := ChangeEntries(ch, np, nc);
      var line, a, r := ChangeLines(ch, prev, curr);
      text, added, removed := text + line, added + a, removed + r;
      EntriesTextAppend(done, es, prev, curr);
      CountsAppend(done, es);
      UnifiedStep(done, changes[i..], np, nc);
      done := done + es;
    }
    assert changes[|changes|..] == [] && done + [] == done;
  }

  lemma UnifiedStep(done: seq<Entry>, changes: seq<LineChange>, np: nat, nc: nat)
    requires changes != []
    ensures done + UnifiedBody(changes, np, nc)
         == (done + ChangeEntries(changes[0], np, nc)) + UnifiedBody(changes[1..], np, nc)
  {
  }

  /** `render_unified`. */
  method RenderUnified(report: Report, prev: Lines, curr: Lines, path: string) returns (out: DiffOutput)
    ensures out == UnifiedOutput(report, prev, curr, path)
  {
    if report.status == "unchanged" {
      return Unchanged;
    }
    if report.status != "changed" {
      return Error("unexpected difftastic status: " + report.status);
    }
    var changes := CollectLineChanges(report.chunks);
    var render := PREFIX_UNIFIED + PathLines(path);
    var text, added, removed := UnifiedLoop(changes, prev, curr);
    render := render + text;
    NeverBlank(render);
    if Trim(render) == "" {
      out := Unchanged;
    } else {
      out := Changed(render, added, removed);
    }
  }
}
