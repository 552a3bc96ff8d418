/** The one-column comparison of web/dashboard/src/components/file_compare.rs: `compute_unified`
    and the choice of visible lines in `render_unified_lines`. */
module UnifiedCompare {
  import opened Options
  import opened DiffText
  import opened DiffViewer
  import opened FileCompare

  /** A block of changed rows, from row `start` to row `end`. */
  datatype ChangeGroup = ChangeGroup(start: nat, end: nat, added: nat, removed: nat)

  datatype UnifiedDiff = UnifiedDiff(lines: seq<DiffLine>, groups: seq<ChangeGroup>)

  function Highlight(text: string): seq<WordSegment> {
    [WordSegment(text, true)]
  }

  function Rest(texts: seq<string>): seq<string> {
    if texts == [] then [] else texts[1..]
  }

  function Partner(texts: seq<string>, q: nat): Option<string> {
    if q < |texts| then Some(texts[q]) else None
  }

  lemma PartnerOfRest(texts: seq<string>, q: nat)
    requires q > 0
    ensures Partner(Rest(texts), q - 1) == Partner(texts, q)
  {
  }

  /** A removed row, with the words against its partner if it has one. */
  function RemovedRow(differ: WordDiffer, n: nat, text: string, partner: Option<string>): DiffLine {
    ChangedRow(n, RemovedLine, text,
               if partner.None? then Highlight(text) else WordsFor(differ, text, partner.value, true))
  }

  function AddedRow(differ: WordDiffer, n: nat, text: string, partner: Option<string>): DiffLine {
    ChangedRow(n, AddedLine, text,
               if partner.None? then Highlight(text) else WordsFor(differ, partner.value, text, false))
  }

  function RemovedRows(differ: WordDiffer, deleted: seq<string>, inserted: seq<string>, l: nat): (rows: seq<DiffLine>)
    ensures |rows| == |deleted|
  {
    if deleted == [] then []
    else
      [RemovedRow(differ, l + 1, deleted[0], Partner(inserted, 0))]
      + RemovedRows(differ, deleted[1..], Rest(inserted), l + 1)
  }

  function AddedRows(differ: WordDiffer, deleted: seq<string>, inserted: seq<string>, r: nat): (rows: seq<DiffLine>)
    ensures |rows| == |inserted|
  {
    if inserted == [] then []
    else
      [AddedRow(differ, r + 1, inserted[0], Partner(deleted, 0))]
      + AddedRows(differ, Rest(deleted), inserted[1..], r + 1)
  }

  function BlockRows(differ: WordDiffer, ops: seq<LineOp>, l: nat, r: nat): seq<DiffLine> {
    RemovedRows(differ, Deleted(ops), Inserted(ops), l) + AddedRows(differ, Deleted(ops), Inserted(ops), r)
  }

  function Append(a: UnifiedDiff, b: UnifiedDiff): UnifiedDiff {
    UnifiedDiff(a.lines + b.lines, a.groups + b.groups)
  }

  /** The rows and groups of the first operation, or of the block that starts the script. */
  function FirstPart(differ: WordDiffer, ops: seq<LineOp>, l: nat, r: nat, base: nat): UnifiedDiff
    requires ops != []
  {
    match ops[0]
    case Equal(t) => UnifiedDiff([ContextRow(l + 1, t)], [])
    case Delete(_) =>
      var d, n := |Deleted(ops)|, |Inserted(ops)|;
      UnifiedDiff(BlockRows(differ, ops, l, r), [ChangeGroup(base, base + d + n - 1, n, d)])
    case Insert(t) => UnifiedDiff([ChangedRow(r + 1, AddedLine, t, Highlight(t))], [ChangeGroup(base, base, 1, 0)])
  }

  /** The left and right lines it covers, and the script after it. */
  function LeftCount(ops: seq<LineOp>): nat
    requires ops != []
  {
    match ops[0] case Equal(_) => 1 case Delete(_) => |Deleted(ops)| case Insert(_) => 0
  }

  function RightCount(ops: seq<LineOp>): nat
    requires ops != []
  {
    match ops[0] case Equal(_) => 1 case Delete(_) => |Inserted(ops)| case Insert(_) => 1
  }

  function RowCount(ops: seq<LineOp>): nat
    requires ops != []
  {
    match ops[0] case Equal(_) => 1 case Delete(_) => |Deleted(ops)| + |Inserted(ops)| case Insert(_) => 1
  }

  function AfterFirst(ops: seq<LineOp>): (rest: seq<LineOp>)
    requires ops != []
    ensures |rest| < |ops|
  {
    if ops[0].Delete? then AfterBlock(ops) else ops[1..]
  }

  function UnifiedOf(differ: WordDiffer, ops: seq<LineOp>, l: nat, r: nat, base: nat): UnifiedDiff
    decreases |ops|
  {
    if ops == [] then UnifiedDiff([], [])
    else
      Append(FirstPart(differ, ops, l, r, base),
             UnifiedOf(differ, AfterFirst(ops), l + LeftCount(ops), r + RightCount(ops), base + RowCount(ops)))
  }

  // ----- the method ---------------------------------------------------------------------------------

  lemma AppendAssoc(a: UnifiedDiff, b: UnifiedDiff, c: UnifiedDiff)
    ensures Append(Append(a, b), c) == Append(a, Append(b, c))
    ensures Append(a, UnifiedDiff([], [])) == a && Append(UnifiedDiff([], []), b) == b
  {
    assert [] + b.lines == b.lines && [] + b.groups == b.groups;
    assert (a.lines + b.lines) + c.lines == a.lines + (b.lines + c.lines);
    assert (a.groups + b.groups) + c.groups == a.groups + (b.groups + c.groups);
    assert a.lines + [] == a.lines && a.groups + [] == a.groups;
  }

  /** Row q of a block when the words of the first `done` pairs have been filled in. */
  function BlockRow(differ: WordDiffer, deleted: seq<string>, inserted: seq<string>, l: nat, r: nat, q: nat,
                    done: nat): DiffLine
    requires q < |deleted| + |inserted|
  {
    if q < |deleted| then
      RemovedRow(differ, l + q + 1, deleted[q], if q < done then Partner(inserted, q) else None)
    else AddedCell(differ, deleted, inserted, r, q - |deleted|, done)
  }

  function AddedCell(differ: WordDiffer, deleted: seq<string>, inserted: seq<string>, r: nat, k: nat,
                     done: nat): DiffLine
    requires k < |inserted|
  {
    AddedRow(differ, r + k + 1, inserted[k], if k < done then Partner(deleted, k) else None)
  }

  lemma TailAt(first: DiffLine, rest: seq<DiffLine>, q: nat)
    requires 0 < q <= |rest|
    ensures ([first] + rest)[q] == rest[q - 1]
  {
  }

  lemma {:induction false} RemovedRowAt(differ: WordDiffer, deleted: seq<string>, inserted: seq<string>, l: nat, q: nat)
    requires q < |deleted|
    ensures RemovedRows(differ, deleted, inserted, l)[q]
            == RemovedRow(differ, l + q + 1, deleted[q], Partner(inserted, q))
  {
    if q > 0 {
      var rest := RemovedRows(differ, deleted[1..], Rest(inserted), l + 1);
      RemovedRowAt(differ, deleted[1..], Rest(inserted), l + 1, q - 1);
      PartnerOfRest(inserted, q);
      TailAt(RemovedRow(differ, l + 1, deleted[0], Partner(inserted, 0)), rest, q);
    }
  }

  lemma {:induction false} AddedRowAt(differ: WordDiffer, deleted: seq<string>, inserted: seq<string>, r: nat, q: nat)
    requires q < |inserted|
    ensures AddedRows(differ, deleted, inserted, r)[q] == AddedRow(differ, r + q + 1, inserted[q], Partner(deleted, q))
  {
    if q > 0 {
      var rest := AddedRows(differ, Rest(deleted), inserted[1..], r + 1);
      AddedRowAt(differ, Rest(deleted), inserted[1..], r + 1, q - 1);
      PartnerOfRest(deleted, q);
      TailAt(AddedRow(differ, r + 1, inserted[0], Partner(deleted, 0)), rest, q);
    }
  }

  /** The two pushing loops of the `Delete` arm. */
  method PushBlock(differ: WordDiffer, deleted: seq<string>, inserted: seq<string>, l: nat, r: nat)
    returns (rows: seq<DiffLine>)
    ensures |rows| == |deleted| + |inserted|
    ensures forall q :: 0 <= q < |rows| ==> rows[q] == BlockRow(differ, deleted, inserted, l, r, q, 0)
  {
    rows := [];
    for k := 0 to |deleted|
      invariant |rows| == k
      invariant forall q :: 0 <= q < |rows| ==> rows[q] == BlockRow(differ, deleted, inserted, l, r, q, 0)
    {
      rows := rows + [ChangedRow(l + k + 1, RemovedLine, deleted[k], Highlight(deleted[k]))];
    }
    for k := 0 to |inserted|
      invariant |rows| == |deleted| + k
      invariant forall q :: 0 <= q < |rows| ==> rows[q] == BlockRow(differ, deleted, inserted, l, r, q, 0)
    {
      rows := rows + [ChangedRow(r + k + 1, AddedLine, inserted[k], Highlight(inserted[k]))];
    }
  }

  /** The loop that replaces the words of paired rows in place. */
  method FillWords(differ: WordDiffer, rows0: seq<DiffLine>, deleted: seq<string>, inserted: seq<string>, l: nat,
                   r: nat)
    returns (rows: seq<DiffLine>)
    requires |rows0| == |deleted| + |inserted|
    requires forall q :: 0 <= q < |rows0| ==> rows0[q] == BlockRow(differ, deleted, inserted, l, r, q, 0)
    ensures rows == RemovedRows(differ, deleted, inserted, l) + AddedRows(differ, deleted, inserted, r)
  {
    rows := rows0;
    var paired := if |deleted| < |inserted| then |deleted| else |inserted|;
    for k := 0 to paired
      invariant |rows| == |deleted| + |inserted|
      invariant forall q :: 0 <= q < |rows| ==> rows[q] == BlockRow(differ, deleted, inserted, l, r, q, k)
    {
      rows := FillPair(differ, rows, deleted, inserted, l, r, k);
    }
    BlockComplete(differ, rows, deleted, inserted, l, r, paired);
  }

  lemma BlockComplete(differ: WordDiffer, rows: seq<DiffLine>, deleted: seq<string>, inserted: seq<string>, l: nat,
                      r: nat,
                      paired: nat)
    requires paired == if |deleted| < |inserted| then |deleted| else |inserted|
    requires |rows| == |deleted| + |inserted|
    requires forall q :: 0 <= q < |rows| ==> rows[q] == BlockRow(differ, deleted, inserted, l, r, q, paired)
    ensures rows == RemovedRows(differ, deleted, inserted, l) + AddedRows(differ, deleted, inserted, r)
  {
    var n := |deleted|;
    assert rows == rows[..n] + rows[n..];
    RemovedPrefix(differ, rows, rows[..n], deleted, inserted, l, r, paired);
    AddedSuffix(differ, rows, rows[n..], deleted, inserted, l, r, paired);
  }

  lemma AddedSuffix(differ: WordDiffer, rows: seq<DiffLine>, suffix: seq<DiffLine>, deleted: seq<string>,
                    inserted: seq<string>, l: nat, r: nat, paired: nat)
    requires paired == if |deleted| < |inserted| then |deleted| else |inserted|
    requires |rows| == |deleted| + |inserted| && suffix == rows[|deleted|..]
    requires forall q :: 0 <= q < |rows| ==> rows[q] == BlockRow(differ, deleted, inserted, l, r, q, paired)
    ensures suffix == AddedRows(differ, deleted, inserted, r)
  {
    forall q | 0 <= q < |suffix| ensures suffix[q] == AddedCell(differ, deleted, inserted, r, q, paired) {
      var at := |deleted| + q;
      assert suffix[q] == rows[at];
    }
    AddedPart(differ, suffix, deleted, inserted, r, paired);
  }

  lemma AddedPart(differ: WordDiffer, rows: seq<DiffLine>, deleted: seq<string>, inserted: seq<string>, r: nat,
                  paired: nat)
    requires paired == if |deleted| < |inserted| then |deleted| else |inserted|
    requires |rows| == |inserted|
    requires forall q :: 0 <= q < |rows| ==> rows[q] == AddedCell(differ, deleted, inserted, r, q, paired)
    ensures rows == AddedRows(differ, deleted, inserted, r)
  {
    forall q | 0 <= q < |rows| ensures rows[q] == AddedRows(differ, deleted, inserted, r)[q] {
      AddedRowAt(differ, deleted, inserted, r, q);
    }
  }

  lemma RemovedPrefix(differ: WordDiffer, rows: seq<DiffLine>, prefix: seq<DiffLine>, deleted: seq<string>,
                      inserted: seq<string>, l: nat, r: nat, paired: nat)
    requires paired == if |deleted| < |inserted| then |deleted| else |inserted|
    requires |rows| == |deleted| + |inserted| && prefix == rows[..|deleted|]
    requires forall q :: 0 <= q < |rows| ==> rows[q] == BlockRow(differ, deleted, inserted, l, r, q, paired)
    ensures prefix == RemovedRows(differ, deleted, inserted, l)
  {
    forall q | 0 <= q < |prefix| ensures prefix[q] == RemovedRows(differ, deleted, inserted, l)[q] {
      assert prefix[q] == rows[q];
      RemovedRowAt(differ, deleted, inserted, l, q);
    }
  }

  /** One iteration of that loop. */
  method FillPair(differ: WordDiffer, rows0: seq<DiffLine>, deleted: seq<string>, inserted: seq<string>, l: nat, r: nat,
                  k: nat)
    returns (rows: seq<DiffLine>)
    requires k < |deleted| && k < |inserted| && |rows0| == |deleted| + |inserted|
    requires forall q :: 0 <= q < |rows0| ==> rows0[q] == BlockRow(differ, deleted, inserted, l, r, q, k)
    ensures |rows| == |rows0|
    ensures forall q :: 0 <= q < |rows| ==> rows[q] == BlockRow(differ, deleted, inserted, l, r, q, k + 1)
  {
    var leftWords := WordDiff(differ, deleted[k], inserted[k], true);
    var rightWords := WordDiff(differ, deleted[k], inserted[k], false);
    rows := rows0[k := rows0[k].(words := leftWords)];
    var other := |deleted| + k;
    rows := rows[other := rows[other].(words := rightWords)];
    forall q | 0 <= q < |rows| ensures rows[q] == BlockRow(differ, deleted, inserted, l, r, q, k + 1) {
      assert rows0[q] == BlockRow(differ, deleted, inserted, l, r, q, k);
    }
  }

  /** `compute_unified`. */
  method ComputeUnified(differ: WordDiffer, ops: seq<LineOp>) returns (diff: UnifiedDiff)
    ensures diff == UnifiedOf(differ, ops, 0, 0, 0)
  {
    diff := UnifiedDiff([], []);
    var i: nat, leftNum: nat, rightNum: nat := 0, 0, 0;
    assert ops[0..] == ops;
    while i < |ops|
      invariant i <= |ops|
      invariant Append(diff, UnifiedOf(differ, ops[i..], leftNum, rightNum, |diff.lines|))
                == UnifiedOf(differ, ops, 0, 0, 0)
    {
      diff, i, leftNum, rightNum := UnifiedIteration(differ, diff, ops, i, leftNum, rightNum);
    }
    AppendAssoc(diff, diff, diff);
  }

  /** One iteration of the loop. */
  method UnifiedIteration(differ: WordDiffer, diff0: UnifiedDiff, ops: seq<LineOp>, i: nat, l0: nat, r0: nat)
    returns (diff: UnifiedDiff, k: nat, l: nat, r: nat)
    requires i < |ops|
    ensures i < k <= |ops|
    ensures Append(diff, UnifiedOf(differ, ops[k..], l, r, |diff.lines|))
         == Append(diff0, UnifiedOf(differ, ops[i..], l0, r0, |diff0.lines|))
  {
    var part, d, n;
    part, k, d, n := EmitPart(differ, ops, i, l0, r0, |diff0.lines|);
    diff, l, r := Append(diff0, part), l0 + d, r0 + n;
    UnifiedStep(differ, diff0, part, ops[i..], ops[k..], l0, r0, l, r);
  }

  lemma UnifiedStep(differ: WordDiffer, diff: UnifiedDiff, part: UnifiedDiff, ops: seq<LineOp>, after: seq<LineOp>,
                    l: nat, r: nat, l': nat, r': nat)
    requires ops != [] && after == AfterFirst(ops) && |part.lines| == RowCount(ops)
    requires part == FirstPart(differ, ops, l, r, |diff.lines|)
    requires l' == l + LeftCount(ops) && r' == r + RightCount(ops)
    ensures Append(Append(diff, part), UnifiedOf(differ, after, l', r', |Append(diff, part).lines|))
         == Append(diff, UnifiedOf(differ, ops, l, r, |diff.lines|))
  {
    var rest := UnifiedOf(differ, after, l', r', |diff.lines| + RowCount(ops));
    UnifiedUnfold(differ, ops, l, r, |diff.lines|, rest);
    AppendAssoc(diff, part, rest);
  }

  lemma UnifiedUnfold(differ: WordDiffer, ops: seq<LineOp>, l: nat, r: nat, base: nat, rest: UnifiedDiff)
    requires ops != []
    requires rest == UnifiedOf(differ, AfterFirst(ops), l + LeftCount(ops), r + RightCount(ops), base + RowCount(ops))
    ensures UnifiedOf(differ, ops, l, r, base) == Append(FirstPart(differ, ops, l, r, base), rest)
  {
  }

  /** The three arms of the loop: what to push, and how far to move i, the left and the right number. */
  method EmitPart(differ: WordDiffer, ops: seq<LineOp>, i: nat, l: nat, r: nat, start: nat)
    returns (part: UnifiedDiff, k: nat, d: nat, n: nat)
    requires i < |ops|
    ensures i < k <= |ops| && ops[i..] != [] && ops[k..] == AfterFirst(ops[i..])
    ensures part == FirstPart(differ, ops[i..], l, r, start) && |part.lines| == RowCount(ops[i..])
    ensures d == LeftCount(ops[i..]) && n == RightCount(ops[i..])
  {
    assert ops[i..][0] == ops[i] && ops[i..][1..] == ops[i + 1..];
    match ops[i]
    case Equal(t) =>
      part, k, d, n := UnifiedDiff([ContextRow(l + 1, t)], []), i + 1, 1, 1;
    case Delete(_) =>
      var deleted, inserted;
      k, deleted, inserted := CollectBlock(ops, i);
      part := EmitGroup(differ, deleted, inserted, l, r, start);
      d, n := |deleted|, |inserted|;
    case Insert(t) =>
      part := UnifiedDiff([ChangedRow(r + 1, AddedLine, t, Highlight(t))], [ChangeGroup(start, start, 1, 0)]);
      k, d, n := i + 1, 0, 1;
  }

  /** The rows and the group of one block that starts at row `start`. */
  method EmitGroup(differ: WordDiffer, deleted: seq<string>, inserted: seq<string>, l: nat, r: nat, start: nat)
    returns (block: UnifiedDiff)
    requires deleted != []
    ensures block.lines == RemovedRows(differ, deleted, inserted, l) + AddedRows(differ, deleted, inserted, r)
    ensures block.groups == [ChangeGroup(start, start + |deleted| + |inserted| - 1, |inserted|, |deleted|)]
  {
    var rows := PushBlock(differ, deleted, inserted, l, r);
    rows := FillWords(differ, rows, deleted, inserted, l, r);
    block := UnifiedDiff(rows, [ChangeGroup(start, start + |rows| - 1, |inserted|, |deleted|)]);
  }
}
