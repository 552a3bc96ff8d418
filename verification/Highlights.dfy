/** Which words the dashboard highlights, in the rendered diff and in both forms of its own comparison. */
module Highlights {
  import opened Options
  import opened DiffText
  import opened DiffViewer
  import opened ViewerTheorems
  import opened FileCompare
  import opened UnifiedCompare
  import opened UnifiedView

  predicate Plainly(line: DiffLine) {
    line.words == [WordSegment(line.content, false)]
  }

  predicate Wholly(line: DiffLine) {
    line.words == [WordSegment(line.content, true)]
  }

  /** No word of the script belongs to this side. */
  predicate Empty(ops: seq<WordOp>, isLeft: bool) {
    forall k :: 0 <= k < |ops| ==> if isLeft then ops[k].New? else ops[k].Gone?
  }

  /** The words are those of one side of the script: what both sides share is plain, the rest is highlighted. A
      side without words is highlighted as a whole. */
  predicate Compared(words: seq<WordSegment>, differ: WordDiffer, left: string, right: string, isLeft: bool) {
    var ops := differ(left, right);
    if Empty(ops, isLeft) then words == [WordSegment(if isLeft then left else right, true)]
    else WordsText(words) == (if isLeft then LeftText(ops) else RightText(ops)) && PlainText(words) == SameText(ops)
  }

  lemma {:induction false} EmptyIffNoSegments(ops: seq<WordOp>, isLeft: bool)
    ensures Empty(ops, isLeft) <==> Segments(ops, isLeft) == []
  {
    if ops != [] {
      EmptyIffNoSegments(ops[1..], isLeft);
      assert Empty(ops, isLeft) <==> (if isLeft then ops[0].New? else ops[0].Gone?) && Empty(ops[1..], isLeft) by {
        assert forall k :: 0 <= k < |ops| - 1 ==> ops[1..][k] == ops[k + 1];
        assert ops == [ops[0]] + ops[1..];
      }
    }
  }

  lemma WordsCompared(differ: WordDiffer, left: string, right: string, isLeft: bool)
    ensures Compared(WordsFor(differ, left, right, isLeft), differ, left, right, isLeft)
  {
    EmptyIffNoSegments(differ(left, right), isLeft);
    SegmentsText(differ(left, right), isLeft);
  }

  // ----- the rendered diff ----------------------------------------------------------------------------

  predicate ContextPlain(lines: seq<DiffLine>) {
    forall k :: 0 <= k < |lines| ==> IsChanged(lines[k]) || Plainly(lines[k])
  }

  lemma {:induction false} BlockHasNoContext(differ: WordDiffer, removed: seq<RawLine>, added: seq<RawLine>)
    requires AllKind(removed, RemovedLine) && AllKind(added, AddedLine)
    ensures ContextPlain(Block(differ, removed, added))
  {
    if removed != [] && added != [] {
      BlockHasNoContext(differ, removed[1..], added[1..]);
    } else {
      HighlightsChanged(removed, RemovedLine);
      HighlightsChanged(added, AddedLine);
    }
  }

  lemma {:induction false} HighlightsChanged(raw: seq<RawLine>, kind: LineKind)
    requires AllKind(raw, kind) && (kind.RemovedLine? || kind.AddedLine?)
    ensures ContextPlain(HighlightAll(raw))
  {
    if raw != [] {
      HighlightsChanged(raw[1..], kind);
    }
  }

  /** Headers and context lines are never highlighted. */
  lemma {:induction false} ContextIsPlain(differ: WordDiffer, raw: seq<RawLine>, i: nat)
    requires i <= |raw|
    ensures ContextPlain(BuildFrom(differ, raw, i))
    decreases |raw| - i
  {
    if i < |raw| {
      if raw[i].kind.RemovedLine? {
        var j := RunEnd(raw, i + 1, RemovedLine);
        var k := RunEnd(raw, j, AddedLine);
        RunOfRemoved(raw, i, j, k);
        BlockHasNoContext(differ, raw[i..j], raw[j..k]);
        ContextIsPlain(differ, raw, k);
      } else {
        ContextIsPlain(differ, raw, i + 1);
      }
    }
  }

  /** In a block of removed and added lines the k-th of each are compared with each other. */
  lemma PairsAreCompared(differ: WordDiffer, removed: seq<RawLine>, added: seq<RawLine>, k: nat)
    requires k < |removed| && k < |added|
    ensures
      var lines := Block(differ, removed, added);
      && 2 * k + 1 < |lines|
      && lines[2 * k].lineNum == removed[k].number && lines[2 * k].kind == RemovedLine
      && lines[2 * k].content == removed[k].content
      && lines[2 * k + 1].lineNum == added[k].number && lines[2 * k + 1].kind == AddedLine
      && lines[2 * k + 1].content == added[k].content
      && Compared(lines[2 * k].words, differ, removed[k].content, added[k].content, true)
      && Compared(lines[2 * k + 1].words, differ, removed[k].content, added[k].content, false)
  {
    PairsAdjacent(differ, removed, added, k);
    var lines := Block(differ, removed, added);
    assert lines[2 * k] == lines[2 * k..2 * k + 2][0] && lines[2 * k + 1] == lines[2 * k..2 * k + 2][1];
    WordsCompared(differ, removed[k].content, added[k].content, true);
    WordsCompared(differ, removed[k].content, added[k].content, false);
  }

  lemma {:induction false} HighlightAllAt(raw: seq<RawLine>, k: nat)
    requires k < |raw|
    ensures |HighlightAll(raw)| == |raw|
    ensures
      var line := HighlightAll(raw)[k];
      line.lineNum == raw[k].number && line.kind == raw[k].kind && line.content == raw[k].content && Wholly(line)
  {
    if |raw| > 1 {
      HighlightAllAt(raw[1..], if k == 0 then 0 else k - 1);
    }
  }

  /** At this place stands this line, highlighted as a whole. */
  predicate HighlightedAt(lines: seq<DiffLine>, at: nat, raw: RawLine) {
    at < |lines| && lines[at].lineNum == raw.number && lines[at].kind == raw.kind
    && lines[at].content == raw.content && Wholly(lines[at])
  }

  lemma HighlightedLater(first: seq<DiffLine>, rest: seq<DiffLine>, at: nat, raw: RawLine)
    requires HighlightedAt(rest, at, raw)
    ensures HighlightedAt(first + rest, |first| + at, raw)
  {
  }

  /** Without pairs, all lines are left over. */
  lemma OneSideHighlighted(differ: WordDiffer, removed: seq<RawLine>, added: seq<RawLine>, k: nat)
    requires removed == [] || added == []
    requires k < |removed| + |added|
    ensures HighlightedAt(Block(differ, removed, added), k, if removed == [] then added[k] else removed[k])
  {
    if removed == [] {
      HighlightAllAt(added, k);
      assert HighlightAll([]) + HighlightAll(added) == HighlightAll(added);
    } else {
      HighlightAllAt(removed, k);
    }
  }

  /** The longer side's lines beyond the pairs follow, each highlighted as a whole. */
  lemma {:induction false} LeftoversAreHighlighted(differ: WordDiffer, removed: seq<RawLine>, added: seq<RawLine>,
                                                   k: nat)
    requires |removed| <= k < |added| || |added| <= k < |removed|
    ensures
      var pairs := if |removed| < |added| then |removed| else |added|;
      HighlightedAt(Block(differ, removed, added), pairs + k, if k < |added| then added[k] else removed[k])
    decreases |removed|
  {
    if removed != [] && added != [] {
      var pairs := if |removed| < |added| then |removed| else |added|;
      LeftoversAreHighlighted(differ, removed[1..], added[1..], k - 1);
      HighlightedLater(Pair(differ, removed[0], added[0]), Block(differ, removed[1..], added[1..]), pairs + k - 2,
                       if k < |added| then added[k] else removed[k]);
    } else {
      OneSideHighlighted(differ, removed, added, k);
    }
  }

  /** An added line that no removed line precedes is highlighted as a whole. */
  lemma LoneAddedIsHighlighted(differ: WordDiffer, raw: seq<RawLine>, i: nat)
    requires i < |raw| && raw[i].kind.AddedLine?
    ensures
      var lines := BuildFrom(differ, raw, i);
      && lines != [] && lines[0].lineNum == raw[i].number && lines[0].kind == AddedLine
      && lines[0].content == raw[i].content && Wholly(lines[0])
  {
  }

  // ----- two columns ----------------------------------------------------------------------------------

  /** Of two cells side by side, equal lines are plain, a line without counterpart is highlighted as a whole, and
      a replaced line and its replacement are compared. */
  predicate CellsMarked(differ: WordDiffer, left: DiffLine, right: DiffLine) {
    if left.lineNum.None? then Wholly(right)
    else if right.lineNum.None? then Wholly(left)
    else if left.kind.ContextLine? then Plainly(left) && Plainly(right)
    else
      && Compared(left.words, differ, left.content, right.content, true)
      && Compared(right.words, differ, left.content, right.content, false)
  }

  predicate SidesMarked(differ: WordDiffer, s: Sides) {
    |s.left| == |s.right| && forall i :: 0 <= i < |s.left| ==> CellsMarked(differ, s.left[i], s.right[i])
  }

  lemma JoinMarked(differ: WordDiffer, a: Sides, b: Sides)
    requires SidesMarked(differ, a) && SidesMarked(differ, b)
    ensures SidesMarked(differ, Join(a, b))
  {
  }

  lemma {:induction false} OnlyMarked(differ: WordDiffer, texts: seq<string>, n: nat)
    ensures SidesMarked(differ, OnlyDeleted(texts, n)) && SidesMarked(differ, OnlyInserted(texts, n))
  {
    if texts != [] {
      OnlyMarked(differ, texts[1..], n + 1);
      JoinMarked(differ, Sides([ChangedRow(n + 1, RemovedLine, texts[0], [WordSegment(texts[0], true)])],
                               [Placeholder(RemovedLine)]), OnlyDeleted(texts[1..], n + 1));
      JoinMarked(differ, Sides([Placeholder(AddedLine)],
                               [ChangedRow(n + 1, AddedLine, texts[0], [WordSegment(texts[0], true)])]),
                 OnlyInserted(texts[1..], n + 1));
    }
  }

  lemma {:induction false} BlockMarked(differ: WordDiffer, deleted: seq<string>, inserted: seq<string>, l: nat, r: nat)
    ensures SidesMarked(differ, ReplaceBlock(differ, deleted, inserted, l, r))
  {
    if deleted != [] && inserted != [] {
      BlockMarked(differ, deleted[1..], inserted[1..], l + 1, r + 1);
      WordsCompared(differ, deleted[0], inserted[0], true);
      WordsCompared(differ, deleted[0], inserted[0], false);
      JoinMarked(differ, PairedRow(differ, deleted[0], inserted[0], l, r),
                 ReplaceBlock(differ, deleted[1..], inserted[1..], l + 1, r + 1));
    } else {
      OnlyMarked(differ, deleted, l);
      OnlyMarked(differ, inserted, r);
      JoinMarked(differ, OnlyDeleted(deleted, l), OnlyInserted(inserted, r));
    }
  }

  /** In the two columns, highlighting is about the line on the other side, for every script and differ. */
  lemma {:induction false} ColumnsMarkChanges(differ: WordDiffer, ops: seq<LineOp>, l: nat, r: nat)
    ensures SidesMarked(differ, DiffOf(differ, ops, l, r))
    decreases |ops|
  {
    if ops != [] {
      match ops[0] {
        case Equal(t) =>
          ColumnsMarkChanges(differ, ops[1..], l + 1, r + 1);
          JoinMarked(differ, Sides([ContextRow(l + 1, t)], [ContextRow(r + 1, t)]),
                     DiffOf(differ, ops[1..], l + 1, r + 1));
        case Delete(_) =>
          var d, n := |Deleted(ops)|, |Inserted(ops)|;
          ColumnsMarkChanges(differ, AfterBlock(ops), l + d, r + n);
          BlockMarked(differ, Deleted(ops), Inserted(ops), l, r);
          JoinMarked(differ, ReplaceBlock(differ, Deleted(ops), Inserted(ops), l, r),
                     DiffOf(differ, AfterBlock(ops), l + d, r + n));
        case Insert(t) =>
          ColumnsMarkChanges(differ, ops[1..], l, r + 1);
          OnlyMarked(differ, [t], r);
          JoinMarked(differ, OnlyInserted([t], r), DiffOf(differ, ops[1..], l, r + 1));
      }
    }
  }

  // ----- one column -----------------------------------------------------------------------------------

  /** Of `removed` rows and then `added` rows, the k-th of each are compared with each other, and the others are
      highlighted as a whole. */
  predicate RowMarked(differ: WordDiffer, rows: seq<DiffLine>, removed: nat, added: nat, q: nat)
    requires q < |rows| == removed + added
  {
    if q < removed then
      if q < added then Compared(rows[q].words, differ, rows[q].content, rows[removed + q].content, true)
      else Wholly(rows[q])
    else if q - removed < removed then
      Compared(rows[q].words, differ, rows[q - removed].content, rows[q].content, false)
    else Wholly(rows[q])
  }

  predicate RowsMarked(differ: WordDiffer, rows: seq<DiffLine>, removed: nat, added: nat) {
    |rows| == removed + added && forall q :: 0 <= q < |rows| ==> RowMarked(differ, rows, removed, added, q)
  }

  predicate GroupMarked(differ: WordDiffer, rows: seq<DiffLine>, g: ChangeGroup, base: nat) {
    base <= g.start <= g.end < base + |rows|
    && RowsMarked(differ, rows[g.start - base..g.end + 1 - base], g.removed, g.added)
  }

  lemma LaterGroup(differ: WordDiffer, first: seq<DiffLine>, rest: seq<DiffLine>, g: ChangeGroup, base: nat)
    requires GroupMarked(differ, rest, g, base + |first|)
    ensures GroupMarked(differ, first + rest, g, base)
  {
    assert (first + rest)[g.start - base..g.end + 1 - base]
           == rest[g.start - base - |first|..g.end + 1 - base - |first|];
  }

  lemma FirstGroup(differ: WordDiffer, first: seq<DiffLine>, rest: seq<DiffLine>, g: ChangeGroup, base: nat)
    requires g.start == base && g.end + 1 == base + |first| && first != []
    requires RowsMarked(differ, first, g.removed, g.added)
    ensures GroupMarked(differ, first + rest, g, base)
  {
    assert (first + rest)[0..|first|] == first;
  }

  lemma RemovedIsMarked(differ: WordDiffer, deleted: seq<string>, inserted: seq<string>, l: nat, q: nat)
    requires q < |deleted|
    ensures
      var row := RemovedRows(differ, deleted, inserted, l)[q];
      row.content == deleted[q]
      && if q < |inserted| then Compared(row.words, differ, deleted[q], inserted[q], true) else Wholly(row)
  {
    RemovedRowAt(differ, deleted, inserted, l, q);
    if q < |inserted| {
      WordsCompared(differ, deleted[q], inserted[q], true);
    }
  }

  lemma AddedIsMarked(differ: WordDiffer, deleted: seq<string>, inserted: seq<string>, r: nat, q: nat)
    requires q < |inserted|
    ensures
      var row := AddedRows(differ, deleted, inserted, r)[q];
      row.content == inserted[q]
      && if q < |deleted| then Compared(row.words, differ, deleted[q], inserted[q], false) else Wholly(row)
  {
    AddedRowAt(differ, deleted, inserted, r, q);
    if q < |deleted| {
      WordsCompared(differ, deleted[q], inserted[q], false);
    }
  }

  lemma RemovedHalf(differ: WordDiffer, above: seq<DiffLine>, below: seq<DiffLine>, q: nat)
    requires q < |above|
    requires if q < |below| then Compared(above[q].words, differ, above[q].content, below[q].content, true)
             else Wholly(above[q])
    ensures RowMarked(differ, above + below, |above|, |below|, q)
  {
    assert (above + below)[q] == above[q];
    assert q < |below| ==> (above + below)[|above| + q] == below[q];
  }

  lemma AddedHalf(differ: WordDiffer, above: seq<DiffLine>, below: seq<DiffLine>, q: nat)
    requires q < |below|
    requires if q < |above| then Compared(below[q].words, differ, above[q].content, below[q].content, false)
             else Wholly(below[q])
    ensures RowMarked(differ, above + below, |above|, |below|, |above| + q)
  {
    assert (above + below)[|above| + q] == below[q];
    assert q < |above| ==> (above + below)[q] == above[q];
  }

  lemma BlockRowMarked(differ: WordDiffer, deleted: seq<string>, inserted: seq<string>, l: nat, r: nat,
                       above: seq<DiffLine>, below: seq<DiffLine>, q: nat)
    requires above == RemovedRows(differ, deleted, inserted, l) && below == AddedRows(differ, deleted, inserted, r)
    requires q < |above| + |below|
    ensures RowMarked(differ, above + below, |above|, |below|, q)
  {
    var n := |deleted|;
    if q < n {
      RemovedIsMarked(differ, deleted, inserted, l, q);
      if q < |inserted| {
        AddedIsMarked(differ, deleted, inserted, r, q);
      }
      RemovedHalf(differ, above, below, q);
    } else {
      AddedIsMarked(differ, deleted, inserted, r, q - n);
      if q - n < n {
        RemovedIsMarked(differ, deleted, inserted, l, q - n);
      }
      AddedHalf(differ, above, below, q - n);
    }
  }

  lemma BlockRowsMarked(differ: WordDiffer, deleted: seq<string>, inserted: seq<string>, l: nat, r: nat,
                        rows: seq<DiffLine>)
    requires rows == RemovedRows(differ, deleted, inserted, l) + AddedRows(differ, deleted, inserted, r)
    ensures RowsMarked(differ, rows, |deleted|, |inserted|)
  {
    forall q | 0 <= q < |rows| ensures RowMarked(differ, rows, |deleted|, |inserted|, q) {
      BlockRowMarked(differ, deleted, inserted, l, r, RemovedRows(differ, deleted, inserted, l),
                     AddedRows(differ, deleted, inserted, r), q);
    }
  }

  lemma ContextPlainAppend(a: seq<DiffLine>, b: seq<DiffLine>)
    requires ContextPlain(a) && ContextPlain(b)
    ensures ContextPlain(a + b)
  {
  }

  lemma {:induction false} ChangedHasNoContext(rows: seq<DiffLine>)
    requires AllChanged(rows)
    ensures ContextPlain(rows)
  {
    if rows != [] {
      ChangedHasNoContext(rows[1..]);
    }
  }

  lemma FirstPartPlain(differ: WordDiffer, ops: seq<LineOp>, l: nat, r: nat, base: nat)
    requires ops != []
    ensures ContextPlain(FirstPart(differ, ops, l, r, base).lines)
  {
    if ops[0].Delete? {
      BlockChanged(differ, ops, l, r);
      ChangedHasNoContext(BlockRows(differ, ops, l, r));
    }
  }

  /** In the one column, unchanged rows are plain. */
  lemma {:induction false} UnchangedRowsArePlain(differ: WordDiffer, ops: seq<LineOp>, l: nat, r: nat, base: nat,
                                                 diff: UnifiedDiff)
    requires diff == UnifiedOf(differ, ops, l, r, base)
    ensures ContextPlain(diff.lines)
    decreases |ops|
  {
    if ops != [] {
      var after, l', r', base' := AfterFirst(ops), l + LeftCount(ops), r + RightCount(ops), base + RowCount(ops);
      var rest := UnifiedOf(differ, after, l', r', base');
      UnchangedRowsArePlain(differ, after, l', r', base', rest);
      FirstPartPlain(differ, ops, l, r, base);
      ContextPlainAppend(FirstPart(differ, ops, l, r, base).lines, rest.lines);
    }
  }

  /** The group of a part, if it has one, is all of its rows. */
  predicate PartMarked(differ: WordDiffer, part: UnifiedDiff, base: nat) {
    part.groups == []
    || (part.lines != [] && |part.groups| == 1 && part.groups[0].start == base
        && part.groups[0].end + 1 == base + |part.lines|
        && RowsMarked(differ, part.lines, part.groups[0].removed, part.groups[0].added))
  }

  lemma FirstPartMarked(differ: WordDiffer, ops: seq<LineOp>, l: nat, r: nat, base: nat)
    requires ops != []
    ensures PartMarked(differ, FirstPart(differ, ops, l, r, base), base)
    ensures |FirstPart(differ, ops, l, r, base).lines| == RowCount(ops)
  {
    if ops[0].Delete? {
      BlockRowsMarked(differ, Deleted(ops), Inserted(ops), l, r, BlockRows(differ, ops, l, r));
    }
  }

  /** The j-th group of two parts is the group of the first, or one of the second. */
  lemma AppendMarked(differ: WordDiffer, first: UnifiedDiff, rest: UnifiedDiff, diff: UnifiedDiff, base: nat,
                     next: nat, j: nat)
    requires diff == Append(first, rest) && j < |diff.groups|
    requires PartMarked(differ, first, base) && next == base + |first.lines|
    requires j >= |first.groups| ==> GroupMarked(differ, rest.lines, rest.groups[j - |first.groups|], next)
    ensures GroupMarked(differ, diff.lines, diff.groups[j], base)
  {
    if j < |first.groups| {
      FirstGroup(differ, first.lines, rest.lines, first.groups[0], base);
    } else {
      LaterGroup(differ, first.lines, rest.lines, rest.groups[j - |first.groups|], base);
    }
  }

  /** And in each group the k-th removed and the k-th added row are compared with each other while the rest is
      highlighted as a whole, for every script and differ. */
  lemma {:induction false} GroupsMarkChanges(differ: WordDiffer, ops: seq<LineOp>, l: nat, r: nat, base: nat,
                                             diff: UnifiedDiff, j: nat)
    requires diff == UnifiedOf(differ, ops, l, r, base) && j < |diff.groups|
    ensures GroupMarked(differ, diff.lines, diff.groups[j], base)
    decreases |ops|
  {
    var after, l', r', base' := AfterFirst(ops), l + LeftCount(ops), r + RightCount(ops), base + RowCount(ops);
    var first, rest := FirstPart(differ, ops, l, r, base), UnifiedOf(differ, after, l', r', base');
    FirstPartMarked(differ, ops, l, r, base);
    if j >= |first.groups| {
      GroupsMarkChanges(differ, after, l', r', base', rest, j - |first.groups|);
    }
    AppendMarked(differ, first, rest, diff, base, base', j);
  }
}
