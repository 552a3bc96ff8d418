/** What the one-column comparison holds, and which of its lines are shown. */
module UnifiedView {
  import opened Options
  import opened DiffText
  import opened DiffViewer
  import opened FileCompare
  import opened UnifiedCompare

  // ----- the rows hold both files -------------------------------------------------------------------

  /** Context and removed rows are the left lines numbered from l + 1; context and added rows are the
      right lines, the added ones numbered by their place among them. */
  predicate Tells(rows: seq<DiffLine>, left: seq<string>, right: seq<string>, l: nat, r: nat) {
    if rows == [] then left == [] && right == []
    else
      match rows[0].kind
      case ContextLine =>
        && left != [] && right != [] && rows[0].lineNum == Some(l + 1)
        && rows[0].content == left[0] && rows[0].content == right[0]
        && Tells(rows[1..], left[1..], right[1..], l + 1, r + 1)
      case RemovedLine =>
        && left != [] && rows[0].lineNum == Some(l + 1) && rows[0].content == left[0]
        && Tells(rows[1..], left[1..], right, l + 1, r)
      case AddedLine =>
        && right != [] && rows[0].lineNum == Some(r + 1) && rows[0].content == right[0]
        && Tells(rows[1..], left, right[1..], l, r + 1)
      case _ => false
  }

  lemma {:induction false} TellsAppend(a: seq<DiffLine>, b: seq<DiffLine>, la: seq<string>, lb: seq<string>,
                                       ra: seq<string>, rb: seq<string>, l: nat, r: nat)
    requires Tells(a, la, ra, l, r) && Tells(b, lb, rb, l + |la|, r + |ra|)
    ensures Tells(a + b, la + lb, ra + rb, l, r)
  {
    if a == [] {
      assert a + b == b && la + lb == lb && ra + rb == rb;
    } else {
      assert (a + b)[0] == a[0] && (a + b)[1..] == a[1..] + b;
      var la', l' := if a[0].kind.AddedLine? then la else la[1..], if a[0].kind.AddedLine? then l else l + 1;
      var ra', r' := if a[0].kind.RemovedLine? then ra else ra[1..], if a[0].kind.RemovedLine? then r else r + 1;
      TellsAppend(a[1..], b, la', lb, ra', rb, l', r');
      if !a[0].kind.AddedLine? {
        assert (la + lb)[0] == la[0] && (la + lb)[1..] == la[1..] + lb;
      }
      if !a[0].kind.RemovedLine? {
        assert (ra + rb)[0] == ra[0] && (ra + rb)[1..] == ra[1..] + rb;
      }
    }
  }

  lemma {:induction false} RemovedTell(differ: WordDiffer, deleted: seq<string>, inserted: seq<string>, l: nat, r: nat)
    ensures Tells(RemovedRows(differ, deleted, inserted, l), deleted, [], l, r)
  {
    if deleted != [] {
      RemovedTell(differ, deleted[1..], Rest(inserted), l + 1, r);
    }
  }

  lemma {:induction false} AddedTell(differ: WordDiffer, deleted: seq<string>, inserted: seq<string>, l: nat, r: nat)
    ensures Tells(AddedRows(differ, deleted, inserted, r), [], inserted, l, r)
  {
    if inserted != [] {
      AddedTell(differ, Rest(deleted), inserted[1..], l, r + 1);
    }
  }

  function FirstLeft(ops: seq<LineOp>): seq<string>
    requires ops != []
  {
    match ops[0] case Equal(t) => [t] case Delete(_) => Deleted(ops) case Insert(_) => []
  }

  function FirstRight(ops: seq<LineOp>): seq<string>
    requires ops != []
  {
    match ops[0] case Equal(t) => [t] case Delete(_) => Inserted(ops) case Insert(t) => [t]
  }

  lemma FirstLines(ops: seq<LineOp>)
    requires ops != []
    ensures LeftLines(ops) == FirstLeft(ops) + LeftLines(AfterFirst(ops)) && |FirstLeft(ops)| == LeftCount(ops)
    ensures RightLines(ops) == FirstRight(ops) + RightLines(AfterFirst(ops)) && |FirstRight(ops)| == RightCount(ops)
  {
    match ops[0]
    case Equal(_) =>
    case Delete(_) => BlockLines(ops);
    case Insert(_) => assert [] + LeftLines(ops[1..]) == LeftLines(ops[1..]);
  }

  lemma FirstTells(differ: WordDiffer, ops: seq<LineOp>, l: nat, r: nat, base: nat)
    requires ops != []
    ensures Tells(FirstPart(differ, ops, l, r, base).lines, FirstLeft(ops), FirstRight(ops), l, r)
  {
    match ops[0]
    case Equal(t) =>
      assert [ContextRow(l + 1, t)][1..] == [] && [t][1..] == [];
    case Delete(_) =>
      RemovedTell(differ, Deleted(ops), Inserted(ops), l, r);
      AddedTell(differ, Deleted(ops), Inserted(ops), l + |Deleted(ops)|, r);
      TellsAppend(RemovedRows(differ, Deleted(ops), Inserted(ops), l),
                  AddedRows(differ, Deleted(ops), Inserted(ops), r),
                  Deleted(ops), [], [], Inserted(ops), l, r);
      assert Deleted(ops) + [] == Deleted(ops) && [] + Inserted(ops) == Inserted(ops);
    case Insert(t) =>
      assert [ChangedRow(r + 1, AddedLine, t, Highlight(t))][1..] == [] && [t][1..] == [];
  }

  /** For every edit script, the unified rows hold both files with their line numbers. */
  lemma {:induction false} RowsHoldFiles(differ: WordDiffer, ops: seq<LineOp>, l: nat, r: nat, base: nat)
    ensures Tells(UnifiedOf(differ, ops, l, r, base).lines, LeftLines(ops), RightLines(ops), l, r)
    decreases |ops|
  {
    if ops != [] {
      var after, l', r' := AfterFirst(ops), l + LeftCount(ops), r + RightCount(ops);
      RowsHoldFiles(differ, after, l', r', base + RowCount(ops));
      FirstTells(differ, ops, l, r, base);
      FirstLines(ops);
      TellsAppend(FirstPart(differ, ops, l, r, base).lines,
                  UnifiedOf(differ, after, l', r', base + RowCount(ops)).lines,
                  FirstLeft(ops), LeftLines(after), FirstRight(ops), RightLines(after), l, r);
    }
  }

  // ----- groups cover exactly the changed rows -----------------------------------------------------

  predicate IsChanged(row: DiffLine) {
    row.kind.AddedLine? || row.kind.RemovedLine?
  }

  predicate NoneChanged(rows: seq<DiffLine>) {
    rows == [] || (!IsChanged(rows[0]) && NoneChanged(rows[1..]))
  }

  predicate AllChanged(rows: seq<DiffLine>) {
    rows == [] || (IsChanged(rows[0]) && AllChanged(rows[1..]))
  }

  function CountKind(rows: seq<DiffLine>, kind: LineKind): nat {
    if rows == [] then 0 else (if rows[0].kind == kind then 1 else 0) + CountKind(rows[1..], kind)
  }

  /** The rows of a group are all changed, and the group counts them. */
  predicate Describes(g: ChangeGroup, rows: seq<DiffLine>) {
    AllChanged(rows) && g.added == CountKind(rows, AddedLine) && g.removed == CountKind(rows, RemovedLine)
  }

  /** The rows numbered from `base` start with context up to the group, then hold the group. */
  predicate Leads(rows: seq<DiffLine>, g: ChangeGroup, base: nat) {
    && base <= g.start <= g.end < base + |rows|
    && NoneChanged(rows[..g.start - base])
    && Describes(g, rows[g.start - base..g.end + 1 - base])
  }

  /** The rows numbered from `base` are context, then the rows of the first group, then context, and
      so on; every row of a group is changed, and the group counts them. */
  predicate Covers(rows: seq<DiffLine>, groups: seq<ChangeGroup>, base: nat) {
    if groups == [] then NoneChanged(rows)
    else
      && Leads(rows, groups[0], base)
      && Covers(rows[groups[0].end + 1 - base..], groups[1..], groups[0].end + 1)
  }

  lemma LeadsParts(gap: seq<DiffLine>, block: seq<DiffLine>, rest: seq<DiffLine>, g: ChangeGroup, base: nat)
    requires NoneChanged(gap) && block != [] && Describes(g, block)
    requires g.start == base + |gap| && g.end + 1 == g.start + |block|
    ensures Leads(gap + block + rest, g, base)
    ensures (gap + block + rest)[g.end + 1 - base..] == rest
  {
    var rows := gap + block + rest;
    assert rows[..|gap|] == gap;
    assert rows[|gap|..|gap| + |block|] == block;
    assert rows[|gap| + |block|..] == rest;
  }

  lemma CoversParts(rows: seq<DiffLine>, g: ChangeGroup, groups: seq<ChangeGroup>, base: nat)
    requires Leads(rows, g, base) && Covers(rows[g.end + 1 - base..], groups, g.end + 1)
    ensures Covers(rows, [g] + groups, base)
  {
    assert ([g] + groups)[0] == g && ([g] + groups)[1..] == groups;
  }

  lemma NoneChangedCons(row: DiffLine, rows: seq<DiffLine>)
    requires !IsChanged(row) && NoneChanged(rows)
    ensures NoneChanged([row] + rows)
  {
    assert ([row] + rows)[0] == row && ([row] + rows)[1..] == rows;
  }

  lemma LeadsContext(row: DiffLine, rows: seq<DiffLine>, g: ChangeGroup, base: nat)
    requires !IsChanged(row) && Leads(rows, g, base + 1)
    ensures Leads([row] + rows, g, base)
    ensures ([row] + rows)[g.end + 1 - base..] == rows[g.end - base..]
  {
    NoneChangedCons(row, rows[..g.start - base - 1]);
    assert ([row] + rows)[..g.start - base] == [row] + rows[..g.start - base - 1];
    assert ([row] + rows)[g.start - base..g.end + 1 - base] == rows[g.start - base - 1..g.end - base];
  }

  lemma CoversContext(row: DiffLine, rows: seq<DiffLine>, groups: seq<ChangeGroup>, base: nat)
    requires !IsChanged(row) && Covers(rows, groups, base + 1)
    ensures Covers([row] + rows, groups, base)
  {
    if groups == [] {
      NoneChangedCons(row, rows);
    } else {
      LeadsContext(row, rows, groups[0], base);
    }
  }

  lemma CoversGroup(block: seq<DiffLine>, rows: seq<DiffLine>, g: ChangeGroup, groups: seq<ChangeGroup>, base: nat)
    requires block != [] && Describes(g, block) && g.start == base && g.end + 1 == base + |block|
    requires Covers(rows, groups, base + |block|)
    ensures Covers(block + rows, [g] + groups, base)
  {
    LeadsParts([], block, rows, g, base);
    assert [] + block + rows == block + rows;
    CoversParts(block + rows, g, groups, base);
  }

  lemma {:induction false} RemovedBlock(differ: WordDiffer, deleted: seq<string>, inserted: seq<string>, l: nat)
    ensures
      var rows := RemovedRows(differ, deleted, inserted, l);
      AllChanged(rows) && CountKind(rows, RemovedLine) == |deleted| && CountKind(rows, AddedLine) == 0
  {
    if deleted != [] {
      RemovedBlock(differ, deleted[1..], Rest(inserted), l + 1);
    }
  }

  lemma {:induction false} AddedBlock(differ: WordDiffer, deleted: seq<string>, inserted: seq<string>, r: nat)
    ensures
      var rows := AddedRows(differ, deleted, inserted, r);
      AllChanged(rows) && CountKind(rows, AddedLine) == |inserted| && CountKind(rows, RemovedLine) == 0
  {
    if inserted != [] {
      AddedBlock(differ, Rest(deleted), inserted[1..], r + 1);
    }
  }

  lemma {:induction false} ChangedAppend(a: seq<DiffLine>, b: seq<DiffLine>)
    ensures AllChanged(a + b) <==> AllChanged(a) && AllChanged(b)
    ensures CountKind(a + b, AddedLine) == CountKind(a, AddedLine) + CountKind(b, AddedLine)
    ensures CountKind(a + b, RemovedLine) == CountKind(a, RemovedLine) + CountKind(b, RemovedLine)
  {
    if a == [] {
      assert a + b == b;
    } else {
      assert (a + b)[0] == a[0] && (a + b)[1..] == a[1..] + b;
      ChangedAppend(a[1..], b);
    }
  }

  lemma OneRowCounts(row: DiffLine)
    ensures AllChanged([row]) <==> IsChanged(row)
    ensures CountKind([row], AddedLine) == (if row.kind.AddedLine? then 1 else 0)
    ensures CountKind([row], RemovedLine) == (if row.kind.RemovedLine? then 1 else 0)
  {
    assert [row][1..] == [];
  }

  lemma BlockChanged(differ: WordDiffer, ops: seq<LineOp>, l: nat, r: nat)
    ensures
      var rows := BlockRows(differ, ops, l, r);
      && AllChanged(rows) && |rows| == |Deleted(ops)| + |Inserted(ops)|
      && CountKind(rows, RemovedLine) == |Deleted(ops)| && CountKind(rows, AddedLine) == |Inserted(ops)|
  {
    RemovedBlock(differ, Deleted(ops), Inserted(ops), l);
    AddedBlock(differ, Deleted(ops), Inserted(ops), r);
    ChangedAppend(RemovedRows(differ, Deleted(ops), Inserted(ops), l),
                  AddedRows(differ, Deleted(ops), Inserted(ops), r));
  }

  /** A part is one unchanged row, or rows that are all changed with their group. */
  predicate PartCovers(part: UnifiedDiff, base: nat) {
    if part.groups == [] then |part.lines| == 1 && !IsChanged(part.lines[0])
    else
      && |part.groups| == 1 && part.lines != [] && Describes(part.groups[0], part.lines)
      && part.groups[0].start == base && part.groups[0].end + 1 == base + |part.lines|
  }

  lemma FirstCovers(differ: WordDiffer, ops: seq<LineOp>, l: nat, r: nat, base: nat)
    requires ops != []
    ensures PartCovers(FirstPart(differ, ops, l, r, base), base)
    ensures |FirstPart(differ, ops, l, r, base).lines| == RowCount(ops)
  {
    match ops[0] {
      case Equal(_) =>
      case Delete(_) =>
        BlockChanged(differ, ops, l, r);
      case Insert(t) =>
        OneRowCounts(ChangedRow(r + 1, AddedLine, t, Highlight(t)));
    }
  }

  lemma AppendCovers(first: UnifiedDiff, rest: UnifiedDiff, diff: UnifiedDiff, base: nat, next: nat)
    requires diff == Append(first, rest) && PartCovers(first, base) && next == base + |first.lines|
    requires Covers(rest.lines, rest.groups, next)
    ensures Covers(diff.lines, diff.groups, base)
  {
    if first.groups == [] {
      CoversContext(first.lines[0], rest.lines, rest.groups, base);
      assert first.lines == [first.lines[0]] && first.groups + rest.groups == rest.groups;
    } else {
      CoversGroup(first.lines, rest.lines, first.groups[0], rest.groups, base);
      assert first.groups == [first.groups[0]];
    }
  }

  /** For every edit script, the groups are ascending and disjoint and cover exactly the changed rows,
      with the right counts. */
  lemma {:induction false} GroupsCoverChanges(differ: WordDiffer, ops: seq<LineOp>, l: nat, r: nat, base: nat,
                                              diff: UnifiedDiff)
    requires diff == UnifiedOf(differ, ops, l, r, base)
    ensures Covers(diff.lines, diff.groups, base)
    decreases |ops|
  {
    if ops != [] {
      var after, l', r', base' := AfterFirst(ops), l + LeftCount(ops), r + RightCount(ops), base + RowCount(ops);
      var rest := UnifiedOf(differ, after, l', r', base');
      GroupsCoverChanges(differ, after, l', r', base', rest);
      FirstCovers(differ, ops, l, r, base);
      AppendCovers(FirstPart(differ, ops, l, r, base), rest, diff, base, base');
    }
  }

  function TotalAdded(groups: seq<ChangeGroup>): nat {
    if groups == [] then 0 else groups[0].added + TotalAdded(groups[1..])
  }

  function TotalRemoved(groups: seq<ChangeGroup>): nat {
    if groups == [] then 0 else groups[0].removed + TotalRemoved(groups[1..])
  }

  /** Insertions and deletions of a script. */
  function Insertions(ops: seq<LineOp>): nat {
    if ops == [] then 0 else (if ops[0].Insert? then 1 else 0) + Insertions(ops[1..])
  }

  function Deletions(ops: seq<LineOp>): nat {
    if ops == [] then 0 else (if ops[0].Delete? then 1 else 0) + Deletions(ops[1..])
  }

  lemma {:induction false} RunOps(ops: seq<LineOp>, deletes: bool)
    ensures Deletions(ops) == (if deletes then |RunTexts(ops, true)| else 0) + Deletions(AfterRun(ops, deletes))
    ensures Insertions(ops) == (if deletes then 0 else |RunTexts(ops, false)|) + Insertions(AfterRun(ops, deletes))
  {
    if ops != [] && InRun(ops[0], deletes) {
      RunOps(ops[1..], deletes);
    }
  }

  lemma TotalsAppend(first: seq<ChangeGroup>, rest: seq<ChangeGroup>)
    requires |first| <= 1
    ensures TotalAdded(first + rest) == (if first == [] then 0 else first[0].added) + TotalAdded(rest)
    ensures TotalRemoved(first + rest) == (if first == [] then 0 else first[0].removed) + TotalRemoved(rest)
  {
    if first == [] {
      assert first + rest == rest;
    } else {
      assert (first + rest)[0] == first[0] && (first + rest)[1..] == rest;
    }
  }

  /** What the first part counts, and what is left to count. */
  lemma FirstTotals(differ: WordDiffer, ops: seq<LineOp>, l: nat, r: nat, base: nat)
    requires ops != []
    ensures
      var groups := FirstPart(differ, ops, l, r, base).groups;
      && |groups| <= 1
      && Insertions(ops) == (if groups == [] then 0 else groups[0].added) + Insertions(AfterFirst(ops))
      && Deletions(ops) == (if groups == [] then 0 else groups[0].removed) + Deletions(AfterFirst(ops))
  {
    if ops[0].Delete? {
      RunOps(ops, true);
      RunOps(AfterRun(ops, true), false);
    }
  }

  lemma TotalsOf(first: UnifiedDiff, rest: UnifiedDiff, diff: UnifiedDiff, added: nat, removed: nat)
    requires diff == Append(first, rest) && |first.groups| <= 1
    requires added == (if first.groups == [] then 0 else first.groups[0].added) + TotalAdded(rest.groups)
    requires removed == (if first.groups == [] then 0 else first.groups[0].removed) + TotalRemoved(rest.groups)
    ensures TotalAdded(diff.groups) == added && TotalRemoved(diff.groups) == removed
  {
    TotalsAppend(first.groups, rest.groups);
  }

  /** The group totals are the insertions and deletions of the script. */
  lemma {:induction false} TotalsMatchScript(differ: WordDiffer, ops: seq<LineOp>, l: nat, r: nat, base: nat,
                                             diff: UnifiedDiff)
    requires diff == UnifiedOf(differ, ops, l, r, base)
    ensures TotalAdded(diff.groups) == Insertions(ops) && TotalRemoved(diff.groups) == Deletions(ops)
    decreases |ops|
  {
    if ops != [] {
      var after, l', r', base' := AfterFirst(ops), l + LeftCount(ops), r + RightCount(ops), base + RowCount(ops);
      var rest := UnifiedOf(differ, after, l', r', base');
      TotalsMatchScript(differ, after, l', r', base', rest);
      FirstTotals(differ, ops, l, r, base);
      UnifiedUnfold(differ, ops, l, r, base, rest);
      TotalsOf(FirstPart(differ, ops, l, r, base), rest, diff, Insertions(ops), Deletions(ops));
    }
  }
}
