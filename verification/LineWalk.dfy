/** The two-pointer walk of crates/config-diff/src/difftastic.rs over a change list, as used by
    the context, full-file and side-by-side renderers. */
module LineWalk {
  import opened Options
  import opened EditScripts

  datatype Side = Side(lineNumber: Option<nat>)
  datatype Chunk = Chunk(lhs: Option<Side>, rhs: Option<Side>)
  datatype LineChange = LineChange(prevLine: Option<nat>, currLine: Option<nat>)

  function LineOf(side: Option<Side>): Option<nat> {
    if side.Some? then side.value.lineNumber else None
  }

  function ChunkChanges(group: seq<Chunk>): seq<LineChange> {
    if group == [] then []
    else
      (if group[0].lhs.None? && group[0].rhs.None? then []
       else [LineChange(LineOf(group[0].lhs), LineOf(group[0].rhs))]) + ChunkChanges(group[1..])
  }

  function AllChanges(chunks: seq<seq<Chunk>>): seq<LineChange> {
    if chunks == [] then [] else ChunkChanges(chunks[0]) + AllChanges(chunks[1..])
  }

  // ----- what the change list says about the chunks -----------------------------------------------------

  function Flat(chunks: seq<seq<Chunk>>): seq<Chunk> {
    if chunks == [] then [] else chunks[0] + Flat(chunks[1..])
  }

  /** The chunks that have a side, in order. */
  function Sided(group: seq<Chunk>): seq<Chunk> {
    if group == [] then []
    else (if group[0].lhs.Some? || group[0].rhs.Some? then [group[0]] else []) + Sided(group[1..])
  }

  /** The previous line is the number of the left side, the current line that of the right side; a side that is
      missing or has no number gives none. */
  predicate Names(change: LineChange, chunk: Chunk) {
    && change.prevLine == (if chunk.lhs.Some? then chunk.lhs.value.lineNumber else None)
    && change.currLine == (if chunk.rhs.Some? then chunk.rhs.value.lineNumber else None)
  }

  predicate NameInOrder(changes: seq<LineChange>, chunks: seq<Chunk>) {
    |changes| == |chunks| && forall k :: 0 <= k < |chunks| ==> Names(changes[k], chunks[k])
  }

  lemma {:induction false} SidedAppend(a: seq<Chunk>, b: seq<Chunk>)
    ensures Sided(a + b) == Sided(a) + Sided(b)
  {
    if a == [] {
      assert a + b == b;
    } else {
      assert (a + b)[0] == a[0] && (a + b)[1..] == a[1..] + b;
      SidedAppend(a[1..], b);
    }
  }

  lemma {:induction false} GroupNames(group: seq<Chunk>)
    ensures NameInOrder(ChunkChanges(group), Sided(group))
  {
    if group != [] {
      GroupNames(group[1..]);
    }
  }

  lemma {:induction false} ChangesNameChunks(chunks: seq<seq<Chunk>>)
    ensures NameInOrder(AllChanges(chunks), Sided(Flat(chunks)))
  {
    if chunks != [] {
      GroupNames(chunks[0]);
      ChangesNameChunks(chunks[1..]);
      SidedAppend(chunks[0], Flat(chunks[1..]));
    }
  }

  /** The chunk that difftastic writes for a change. */
  function ChunkOf(change: LineChange): Chunk {
    Chunk(if change.prevLine.Some? then Some(Side(change.prevLine)) else None,
          if change.currLine.Some? then Some(Side(change.currLine)) else None)
  }

  function ChunksOf(changes: seq<LineChange>): seq<Chunk> {
    if changes == [] then [] else [ChunkOf(changes[0])] + ChunksOf(changes[1..])
  }

  predicate EachNamesLine(changes: seq<LineChange>) {
    forall k :: 0 <= k < |changes| ==> changes[k].prevLine.Some? || changes[k].currLine.Some?
  }

  lemma {:induction false} ChunksOfNamed(changes: seq<LineChange>)
    requires EachNamesLine(changes)
    ensures Sided(ChunksOf(changes)) == ChunksOf(changes) && |ChunksOf(changes)| == |changes|
    ensures forall k :: 0 <= k < |changes| ==> ChunksOf(changes)[k] == ChunkOf(changes[k])
  {
    if changes != [] {
      assert forall k :: 0 <= k < |changes[1..]| ==> changes[1..][k] == changes[k + 1];
      ChunksOfNamed(changes[1..]);
    }
  }

  /** The chunks of any list of changes, in any grouping, are collected back as that list. */
  lemma ChunksRoundTrip(chunks: seq<seq<Chunk>>, changes: seq<LineChange>)
    requires Flat(chunks) == ChunksOf(changes) && EachNamesLine(changes)
    ensures AllChanges(chunks) == changes
  {
    ChangesNameChunks(chunks);
    ChunksOfNamed(changes);
    forall k | 0 <= k < |changes| ensures AllChanges(chunks)[k] == changes[k] {
      assert Names(AllChanges(chunks)[k], ChunkOf(changes[k]));
    }
  }

  /** `collect_line_changes`. */
  method CollectLineChanges(chunks: seq<seq<Chunk>>) returns (changes: seq<LineChange>)
    ensures changes == AllChanges(chunks) && NameInOrder(changes, Sided(Flat(chunks)))
  {
    ChangesNameChunks(chunks);
    changes := [];
    for i := 0 to |chunks|
      invariant changes + AllChanges(chunks[i..]) == AllChanges(chunks)
    {
      assert chunks[i..][0] == chunks[i] && chunks[i..][1..] == chunks[i + 1..];
      ghost var before := changes;
      changes := CollectGroup(changes, chunks[i]);
      assert changes + AllChanges(chunks[i + 1..]) == before + (ChunkChanges(chunks[i]) + AllChanges(chunks[i + 1..]));
    }
    assert chunks[|chunks|..] == [];
  }

  /** Its inner loop, over one group. */
  method CollectGroup(soFar: seq<LineChange>, group: seq<Chunk>) returns (changes: seq<LineChange>)
    ensures changes == soFar + ChunkChanges(group)
  {
    changes := soFar;
    for j := 0 to |group|
      invariant changes + ChunkChanges(group[j..]) == soFar + ChunkChanges(group)
    {
      assert group[j..][0] == group[j] && group[j..][1..] == group[j + 1..];
      match (group[j].lhs, group[j].rhs) {
        case (Some(lhs), Some(rhs)) =>
          changes := changes + [LineChange(lhs.lineNumber, rhs.lineNumber)];
        case (None, Some(rhs)) =>
          changes := changes + [LineChange(None, rhs.lineNumber)];
        case (Some(lhs), None) =>
          changes := changes + [LineChange(lhs.lineNumber, None)];
        case (None, None) =>
      }
    }
    assert group[|group|..] == [];
  }

  // ----- the walk as a function ------------------------------------------------------------

  function Target(line: Option<nat>, len: nat): nat {
    if line.Some? then line.value else len
  }

  /** How many times the inner `while` loop runs from pointers p and c. */
  function RunLength(p: nat, c: nat, pTarget: nat, cTarget: nat): nat {
    if pTarget <= p || cTarget <= c then 0
    else if pTarget - p <= cTarget - c then pTarget - p else cTarget - c
  }

  lemma RunLengthStep(p: nat, c: nat, pTarget: nat, cTarget: nat)
    requires p < pTarget && c < cTarget
    ensures RunLength(p, c, pTarget, cTarget) == 1 + RunLength(p + 1, c + 1, pTarget, cTarget)
  {
  }

  /** The context entries that loop pushes: only those within both files. */
  function ContextRun(p: nat, c: nat, pTarget: nat, cTarget: nat, np: nat, nc: nat): seq<Entry>
    decreases pTarget - p
  {
    if p < pTarget && c < cTarget then
      (if p < np && c < nc then [Context(p, c)] else []) + ContextRun(p + 1, c + 1, pTarget, cTarget, np, nc)
    else []
  }

  function ChangeEntries(ch: LineChange, np: nat, nc: nat): seq<Entry> {
    (if ch.prevLine.Some? && ch.prevLine.value < np then [Removed(ch.prevLine.value)] else [])
    + (if ch.currLine.Some? && ch.currLine.value < nc then [Added(ch.currLine.value)] else [])
  }

  /** A pointer moves past an in-range line unless it is already beyond it. */
  function Advance(pointer: nat, line: Option<nat>, len: nat): nat {
    if line.Some? && line.value < len && pointer <= line.value then line.value + 1 else pointer
  }

  /** How many context lines the walk emits before the change `ch`. */
  function RunBefore(ch: LineChange, p: nat, c: nat, np: nat, nc: nat): nat {
    RunLength(p, c, Target(ch.prevLine, np), Target(ch.currLine, nc))
  }

  /** The entries for one change and the context before it. */
  function Segment(ch: LineChange, p: nat, c: nat, np: nat, nc: nat): seq<Entry> {
    ContextRun(p, c, Target(ch.prevLine, np), Target(ch.currLine, nc), np, nc) + ChangeEntries(ch, np, nc)
  }

  function NextPrev(ch: LineChange, p: nat, c: nat, np: nat, nc: nat): nat {
    Advance(p + RunBefore(ch, p, c, np, nc), ch.prevLine, np)
  }

  function NextCurr(ch: LineChange, p: nat, c: nat, np: nat, nc: nat): nat {
    Advance(c + RunBefore(ch, p, c, np, nc), ch.currLine, nc)
  }

  function Walk(changes: seq<LineChange>, p: nat, c: nat, np: nat, nc: nat): seq<Entry> {
    if changes == [] then ContextRun(p, c, np, nc, np, nc)
    else
      var ch := changes[0];
      Segment(ch, p, c, np, nc) + Walk(changes[1..], NextPrev(ch, p, c, np, nc), NextCurr(ch, p, c, np, nc), np, nc)
  }

  /** The entry list `render_context` builds. */
  method BuildEntries(changes: seq<LineChange>, np: nat, nc: nat) returns (entries: seq<Entry>)
    ensures entries == Walk(changes, 0, 0, np, nc)
  {
    entries := [];
    var p: nat, c: nat := 0, 0;
    for i := 0 to |changes|
      invariant entries + Walk(changes[i..], p, c, np, nc) == Walk(changes, 0, 0, np, nc)
    {
      var ch := changes[i];
      assert changes[i..][0] == ch && changes[i..][1..] == changes[i + 1..];
      WalkStep(entries, changes[i..], p, c, np, nc);
      entries, p, c := EmitSegment(entries, p, c, ch, np, nc);
    }
    assert changes[|changes|..] == [];
    entries, p, c := EmitContext(entries, p, c, np, nc, np, nc);
  }

  /** The body of the loop over the changes. */
  method EmitSegment(soFar: seq<Entry>, p0: nat, c0: nat, ch: LineChange, np: nat, nc: nat)
    returns (entries: seq<Entry>, p: nat, c: nat)
    ensures entries == soFar + Segment(ch, p0, c0, np, nc)
    ensures p == NextPrev(ch, p0, c0, np, nc) && c == NextCurr(ch, p0, c0, np, nc)
  {
    entries, p, c := EmitContext(soFar, p0, c0, Target(ch.prevLine, np), Target(ch.currLine, nc), np, nc);
    entries, p, c := EmitChange(entries, p, c, ch, np, nc);
  }

  lemma WalkStep(soFar: seq<Entry>, changes: seq<LineChange>, p: nat, c: nat, np: nat, nc: nat)
    requires changes != []
    ensures
      var ch := changes[0];
      soFar + Walk(changes, p, c, np, nc)
      == (soFar + Segment(ch, p, c, np, nc))
         + Walk(changes[1..], NextPrev(ch, p, c, np, nc), NextCurr(ch, p, c, np, nc), np, nc)
  {
    var ch := changes[0];
    var segment, rest := Segment(ch, p, c, np, nc),
      Walk(changes[1..], NextPrev(ch, p, c, np, nc), NextCurr(ch, p, c, np, nc), np, nc);
    assert soFar + (segment + rest) == (soFar + segment) + rest;
  }

  /** The inner loop: context lines up to a change, or up to the end of the files. */
  method EmitContext(soFar: seq<Entry>, p0: nat, c0: nat, pTarget: nat, cTarget: nat, np: nat, nc: nat)
    returns (entries: seq<Entry>, p: nat, c: nat)
    ensures entries == soFar + ContextRun(p0, c0, pTarget, cTarget, np, nc)
    ensures p == p0 + RunLength(p0, c0, pTarget, cTarget)
    ensures c == c0 + RunLength(p0, c0, pTarget, cTarget)
  {
    entries, p, c := soFar, p0, c0;
    while p < pTarget && c < cTarget
      invariant p0 <= p && p - p0 == c - c0
      invariant entries + ContextRun(p, c, pTarget, cTarget, np, nc)
             == soFar + ContextRun(p0, c0, pTarget, cTarget, np, nc)
      invariant RunLength(p0, c0, pTarget, cTarget) == p - p0 + RunLength(p, c, pTarget, cTarget)
      decreases pTarget - p
    {
      if p < np && c < nc {
        entries := entries + [Context(p, c)];
      }
      p, c := p + 1, c + 1;
    }
  }

  /** The removal and the addition of one change, and the pointer updates that follow them. */
  method EmitChange(soFar: seq<Entry>, p0: nat, c0: nat, ch: LineChange, np: nat, nc: nat)
    returns (entries: seq<Entry>, p: nat, c: nat)
    ensures entries == soFar + ChangeEntries(ch, np, nc)
    ensures p == Advance(p0, ch.prevLine, np)
    ensures c == Advance(c0, ch.currLine, nc)
  {
    entries, p, c := soFar, p0, c0;
    if ch.prevLine.Some? {
      var pl := ch.prevLine.value;
      if pl < np {
        entries := entries + [Removed(pl)];
        if p <= pl {
          p := pl + 1;
        }
      }
    }
    if ch.currLine.Some? {
      var cl := ch.currLine.value;
      if cl < nc {
        entries := entries + [Added(cl)];
        if c <= cl {
          c := cl + 1;
        }
      }
    }
  }

  // ----- what the walk produces --------------------------------------------------------------

  predicate ChangeInRange(ch: LineChange, np: nat, nc: nat) {
    && (ch.prevLine.Some? || ch.currLine.Some?)
    && (ch.prevLine.Some? ==> ch.prevLine.value < np)
    && (ch.currLine.Some? ==> ch.currLine.value < nc)
  }

  predicate InRange(changes: seq<LineChange>, np: nat, nc: nat) {
    forall i :: 0 <= i < |changes| ==> ChangeInRange(changes[i], np, nc)
  }

  /** The number of unchanged lines a faithful change list leaves before `ch`. */
  function Gap(ch: LineChange, p: nat, c: nat): int {
    if ch.prevLine.Some? then ch.prevLine.value - p
    else if ch.currLine.Some? then ch.currLine.value - c
    else 0
  }

  /** The change sits at lines p and c. */
  predicate Lands(ch: LineChange, p: nat, c: nat) {
    (ch.prevLine.Some? ==> ch.prevLine.value == p) && (ch.currLine.Some? ==> ch.currLine.value == c)
  }

  /** Between lines p and c and the change lie equally many, equal lines on both sides. */
  ghost predicate FaithfulHead(ch: LineChange, p: nat, c: nat, prev: Lines, curr: Lines)
    requires p <= |prev| && c <= |curr|
  {
    var gap := Gap(ch, p, c);
    && 0 <= gap && p + gap <= |prev| && c + gap <= |curr|
    && prev[p..p + gap] == curr[c..c + gap]
    && (ch.prevLine.Some? || ch.currLine.Some?)
    && Lands(ch, p + gap, c + gap)
    && (ch.prevLine.Some? ==> p + gap < |prev|)
    && (ch.currLine.Some? ==> c + gap < |curr|)
  }

  function PrevAfter(ch: LineChange, p: nat, c: nat): int {
    p + Gap(ch, p, c) + (if ch.prevLine.Some? then 1 else 0)
  }

  function CurrAfter(ch: LineChange, p: nat, c: nat): int {
    c + Gap(ch, p, c) + (if ch.currLine.Some? then 1 else 0)
  }

  /** From lines p and c on, the lines the change list does not mention are equal in pairs:
      before each change, the same number of equal lines on both sides; after the last, equal tails. */
  ghost predicate FaithfulFrom(changes: seq<LineChange>, p: nat, c: nat, prev: Lines, curr: Lines)
    requires p <= |prev| && c <= |curr|
  {
    if changes == [] then prev[p..] == curr[c..]
    else
      var ch := changes[0];
      && FaithfulHead(ch, p, c, prev, curr)
      && FaithfulFrom(changes[1..], PrevAfter(ch, p, c), CurrAfter(ch, p, c), prev, curr)
  }

  ghost predicate Faithful(changes: seq<LineChange>, prev: Lines, curr: Lines) {
    FaithfulFrom(changes, 0, 0, prev, curr)
  }

  lemma {:induction false} FaithfulInRange(changes: seq<LineChange>, p: nat, c: nat, prev: Lines, curr: Lines)
    requires p <= |prev| && c <= |curr| && FaithfulFrom(changes, p, c, prev, curr)
    ensures InRange(changes, |prev|, |curr|)
  {
    if changes != [] {
      var ch := changes[0];
      FaithfulInRange(changes[1..], PrevAfter(ch, p, c), CurrAfter(ch, p, c), prev, curr);
      forall i | 0 <= i < |changes| ensures ChangeInRange(changes[i], |prev|, |curr|) {
        if i > 0 {
          assert changes[i] == changes[1..][i - 1];
        }
      }
    }
  }

  lemma {:induction false} ContextRunShape(p: nat, c: nat, pt: nat, ct: nat, prev: Lines, curr: Lines)
    requires p <= |prev| && c <= |curr| && pt <= |prev| && ct <= |curr|
    ensures
      var run := ContextRun(p, c, pt, ct, |prev|, |curr|);
      var k := RunLength(p, c, pt, ct);
      && |PrevNumbers(run)| == |CurrNumbers(run)| == k
      && (Steps(run, p, c, prev, curr) <==> prev[p..p + k] == curr[c..c + k])
    decreases pt - p
  {
    var k := RunLength(p, c, pt, ct);
    if k > 0 {
      ContextRunShape(p + 1, c + 1, pt, ct, prev, curr);
      var run := ContextRun(p, c, pt, ct, |prev|, |curr|);
      assert run[0] == Context(p, c) && run[1..] == ContextRun(p + 1, c + 1, pt, ct, |prev|, |curr|);
      EqualSlicesCons(p, c, k, prev, curr);
    } else {
      assert prev[p..p + k] == [] == curr[c..c + k];
    }
  }

  lemma ChangeEntriesShape(ch: LineChange, p: nat, c: nat, prev: Lines, curr: Lines)
    requires ch.prevLine.Some? ==> ch.prevLine.value < |prev|
    requires ch.currLine.Some? ==> ch.currLine.value < |curr|
    ensures
      var es := ChangeEntries(ch, |prev|, |curr|);
      && (Steps(es, p, c, prev, curr) <==> Lands(ch, p, c))
      && (Lands(ch, p, c) ==>
            && p + |PrevNumbers(es)| == Advance(p, ch.prevLine, |prev|)
            && c + |CurrNumbers(es)| == Advance(c, ch.currLine, |curr|))
  {
    var es := ChangeEntries(ch, |prev|, |curr|);
    match (ch.prevLine, ch.currLine)
    case (Some(pl), Some(cl)) =>
      var added := [Added(cl)];
      assert es == [Removed(pl), Added(cl)];
      assert es[0] == Removed(pl) && es[1..] == added && added[1..] == [];
      assert |PrevNumbers(added)| == 0 && |CurrNumbers(added)| == 1;
      assert Steps(added, p + 1, c, prev, curr) <==> cl == c;
    case (Some(pl), None) =>
      assert es == [Removed(pl)] && es[1..] == [];
    case (None, Some(cl)) =>
      assert es == [Added(cl)] && es[1..] == [];
    case (None, None) =>
  }

  lemma SegmentShape(ch: LineChange, p: nat, c: nat, k: nat, prev: Lines, curr: Lines)
    requires p <= |prev| && c <= |curr| && ChangeInRange(ch, |prev|, |curr|)
    requires k == RunBefore(ch, p, c, |prev|, |curr|)
    ensures
      var np, nc := |prev|, |curr|;
      var seg := Segment(ch, p, c, np, nc);
      && p + k <= np && c + k <= nc
      && (Steps(seg, p, c, prev, curr) <==> prev[p..p + k] == curr[c..c + k] && Lands(ch, p + k, c + k))
      && (Lands(ch, p + k, c + k) ==>
            && p + |PrevNumbers(seg)| == NextPrev(ch, p, c, np, nc)
            && c + |CurrNumbers(seg)| == NextCurr(ch, p, c, np, nc))
  {
    var run := ContextRun(p, c, Target(ch.prevLine, |prev|), Target(ch.currLine, |curr|), |prev|, |curr|);
    ContextRunShape(p, c, Target(ch.prevLine, |prev|), Target(ch.currLine, |curr|), prev, curr);
    RunThenChange(run, ch, p, c, k, prev, curr);
  }

  lemma RunThenChange(run: seq<Entry>, ch: LineChange, p: nat, c: nat, k: nat, prev: Lines, curr: Lines)
    requires p + k <= |prev| && c + k <= |curr| && ChangeInRange(ch, |prev|, |curr|)
    requires |PrevNumbers(run)| == |CurrNumbers(run)| == k
    ensures
      var es := ChangeEntries(ch, |prev|, |curr|);
      && (Steps(run + es, p, c, prev, curr) <==> Steps(run, p, c, prev, curr) && Lands(ch, p + k, c + k))
      && (Lands(ch, p + k, c + k) ==>
            && p + |PrevNumbers(run + es)| == Advance(p + k, ch.prevLine, |prev|)
            && c + |CurrNumbers(run + es)| == Advance(c + k, ch.currLine, |curr|))
  {
    var es := ChangeEntries(ch, |prev|, |curr|);
    ChangeEntriesShape(ch, p + k, c + k, prev, curr);
    StepsAppend(run, es, p, c, prev, curr);
    PrevNumbersAppend(run, es);
    CurrNumbersAppend(run, es);
  }

  lemma HeadIffLands(ch: LineChange, p: nat, c: nat, k: nat, prev: Lines, curr: Lines)
    requires p <= |prev| && c <= |curr| && ChangeInRange(ch, |prev|, |curr|)
    requires k == RunBefore(ch, p, c, |prev|, |curr|)
    ensures p + k <= |prev| && c + k <= |curr|
    ensures FaithfulHead(ch, p, c, prev, curr) <==> prev[p..p + k] == curr[c..c + k] && Lands(ch, p + k, c + k)
    ensures Lands(ch, p + k, c + k) ==>
              && NextPrev(ch, p, c, |prev|, |curr|) == PrevAfter(ch, p, c)
              && NextCurr(ch, p, c, |prev|, |curr|) == CurrAfter(ch, p, c)
  {
    if Lands(ch, p + k, c + k) {
      assert Gap(ch, p, c) == k;
    }
  }

  /** The segment of one in-range change continues both files exactly when the change is where a
      faithful list would have it, and then the pointers end just past it. */
  lemma SegmentIffHead(ch: LineChange, p: nat, c: nat, prev: Lines, curr: Lines)
    requires p <= |prev| && c <= |curr| && ChangeInRange(ch, |prev|, |curr|)
    ensures
      var np, nc := |prev|, |curr|;
      var seg := Segment(ch, p, c, np, nc);
      && (Steps(seg, p, c, prev, curr) <==> FaithfulHead(ch, p, c, prev, curr))
      && (FaithfulHead(ch, p, c, prev, curr) ==>
            && p + |PrevNumbers(seg)| == NextPrev(ch, p, c, np, nc) == PrevAfter(ch, p, c)
            && c + |CurrNumbers(seg)| == NextCurr(ch, p, c, np, nc) == CurrAfter(ch, p, c))
  {
    var k := RunBefore(ch, p, c, |prev|, |curr|);
    SegmentShape(ch, p, c, k, prev, curr);
    HeadIffLands(ch, p, c, k, prev, curr);
  }

  /** The walk of a change list whose lines are in range visits every line of both files once,
      in order, and pairs only equal lines, exactly when the change list is faithful. */
  lemma {:induction false} WalkCompletesIffFaithful(changes: seq<LineChange>, p: nat, c: nat, prev: Lines, curr: Lines)
    requires p <= |prev| && c <= |curr|
    requires InRange(changes, |prev|, |curr|)
    ensures Completes(Walk(changes, p, c, |prev|, |curr|), p, c, prev, curr)
            <==> FaithfulFrom(changes, p, c, prev, curr)
  {
    if changes == [] {
      WalkTail(p, c, prev, curr);
    } else {
      var ch, np, nc := changes[0], |prev|, |curr|;
      var p', c' := NextPrev(ch, p, c, np, nc), NextCurr(ch, p, c, np, nc);
      SegmentIffHead(ch, p, c, prev, curr);
      CompletesAppend(Segment(ch, p, c, np, nc), Walk(changes[1..], p', c', np, nc), p, c, prev, curr);
      if FaithfulHead(ch, p, c, prev, curr) {
        WalkCompletesIffFaithful(changes[1..], p', c', prev, curr);
      }
    }
  }

  lemma WalkTail(p: nat, c: nat, prev: Lines, curr: Lines)
    requires p <= |prev| && c <= |curr|
    ensures Completes(Walk([], p, c, |prev|, |curr|), p, c, prev, curr) <==> prev[p..] == curr[c..]
  {
    var k := RunLength(p, c, |prev|, |curr|);
    ContextRunShape(p, c, |prev|, |curr|, prev, curr);
    RunCompletesIff(ContextRun(p, c, |prev|, |curr|, |prev|, |curr|), p, c, k, prev, curr);
    TailsEqualIff(p, c, k, prev, curr);
  }

  lemma RunCompletesIff(run: seq<Entry>, p: nat, c: nat, k: nat, prev: Lines, curr: Lines)
    requires |PrevNumbers(run)| == |CurrNumbers(run)| == k && p + k <= |prev| && c + k <= |curr|
    requires Steps(run, p, c, prev, curr) <==> prev[p..p + k] == curr[c..c + k]
    ensures Completes(run, p, c, prev, curr)
            <==> p + k == |prev| && c + k == |curr| && prev[p..p + k] == curr[c..c + k]
  {
  }

  lemma TailsEqualIff(p: nat, c: nat, k: nat, prev: Lines, curr: Lines)
    requires p + k <= |prev| && c + k <= |curr| && (p + k == |prev| || c + k == |curr|)
    ensures prev[p..] == curr[c..] <==> p + k == |prev| && c + k == |curr| && prev[p..p + k] == curr[c..c + k]
  {
    if p + k == |prev| && c + k == |curr| {
      assert prev[p..] == prev[p..p + k] && curr[c..] == curr[c..c + k];
    } else {
      assert |prev[p..]| != |curr[c..]|;
    }
  }

  /** For every change list in range: the rendered entries are an edit script from the previous
      to the current file if and only if the list is faithful. */
  lemma EditScriptIffFaithful(changes: seq<LineChange>, prev: Lines, curr: Lines)
    requires InRange(changes, |prev|, |curr|)
    ensures IsEditScript(Walk(changes, 0, 0, |prev|, |curr|), prev, curr) <==> Faithful(changes, prev, curr)
  {
    WalkCompletesIffFaithful(changes, 0, 0, prev, curr);
    EditScriptIffCompletes(Walk(changes, 0, 0, |prev|, |curr|), prev, curr);
  }
}
