/** Side-by-side file comparison: `compute_diff` of web/dashboard/src/components/file_compare.rs.
    The edit script of the `similar` crate is an input; every script is covered. */
module FileCompare {
  import opened Options
  import opened DiffText
  import opened DiffViewer

  datatype LineOp = Equal(text: string) | Delete(text: string) | Insert(text: string)

  /** The lines an edit script takes from the left file, and those it makes the right file. */
  function LeftLines(ops: seq<LineOp>): seq<string> {
    if ops == [] then []
    else if ops[0].Insert? then LeftLines(ops[1..])
    else [ops[0].text] + LeftLines(ops[1..])
  }

  function RightLines(ops: seq<LineOp>): seq<string> {
    if ops == [] then []
    else if ops[0].Delete? then RightLines(ops[1..])
    else [ops[0].text] + RightLines(ops[1..])
  }

  /** Whether an operation belongs to a run of deletions, or of insertions. */
  predicate InRun(op: LineOp, deletes: bool) {
    if deletes then op.Delete? else op.Insert?
  }

  /** The texts of the run that starts a script, and the script after it. */
  function RunTexts(ops: seq<LineOp>, deletes: bool): seq<string> {
    if ops == [] || !InRun(ops[0], deletes) then [] else [ops[0].text] + RunTexts(ops[1..], deletes)
  }

  function AfterRun(ops: seq<LineOp>, deletes: bool): (rest: seq<LineOp>)
    ensures |rest| + |RunTexts(ops, deletes)| == |ops|
  {
    if ops == [] || !InRun(ops[0], deletes) then ops else AfterRun(ops[1..], deletes)
  }

  /** A script that starts with a deletion starts with a block: its deletions, the insertions that
      follow, and what comes after them. */
  function Deleted(ops: seq<LineOp>): seq<string> {
    RunTexts(ops, true)
  }

  function Inserted(ops: seq<LineOp>): seq<string> {
    RunTexts(AfterRun(ops, true), false)
  }

  function AfterBlock(ops: seq<LineOp>): (rest: seq<LineOp>)
    ensures |rest| + |Deleted(ops)| + |Inserted(ops)| == |ops|
  {
    AfterRun(AfterRun(ops, true), false)
  }

  // ----- rows ---------------------------------------------------------------------------------------

  function ContextRow(n: nat, text: string): DiffLine {
    DiffLine(Some(n), ContextLine, text, [WordSegment(text, false)])
  }

  function ChangedRow(n: nat, kind: LineKind, text: string, words: seq<WordSegment>): DiffLine {
    DiffLine(Some(n), kind, text, words)
  }

  /** The empty cell opposite a line that the other file lacks. */
  function Placeholder(kind: LineKind): DiffLine {
    DiffLine(None, kind, "", [])
  }

  datatype Sides = Sides(left: seq<DiffLine>, right: seq<DiffLine>)

  function Join(a: Sides, b: Sides): Sides {
    Sides(a.left + b.left, a.right + b.right)
  }

  /** Deletions with nothing opposite; l is the last left number used. */
  function OnlyDeleted(deleted: seq<string>, l: nat): Sides {
    if deleted == [] then Sides([], [])
    else
      Join(Sides([ChangedRow(l + 1, RemovedLine, deleted[0], [WordSegment(deleted[0], true)])],
                 [Placeholder(RemovedLine)]),
           OnlyDeleted(deleted[1..], l + 1))
  }

  function OnlyInserted(inserted: seq<string>, r: nat): Sides {
    if inserted == [] then Sides([], [])
    else
      Join(Sides([Placeholder(AddedLine)],
                 [ChangedRow(r + 1, AddedLine, inserted[0], [WordSegment(inserted[0], true)])]),
           OnlyInserted(inserted[1..], r + 1))
  }

  /** A deletion opposite the insertion that replaces it. */
  function PairedRow(differ: WordDiffer, deleted: string, inserted: string, l: nat, r: nat): Sides {
    Sides([ChangedRow(l + 1, RemovedLine, deleted, WordsFor(differ, deleted, inserted, true))],
          [ChangedRow(r + 1, AddedLine, inserted, WordsFor(differ, deleted, inserted, false))])
  }

  function ReplaceBlock(differ: WordDiffer, deleted: seq<string>, inserted: seq<string>, l: nat, r: nat): Sides {
    if deleted != [] && inserted != [] then
      Join(PairedRow(differ, deleted[0], inserted[0], l, r),
           ReplaceBlock(differ, deleted[1..], inserted[1..], l + 1, r + 1))
    else Join(OnlyDeleted(deleted, l), OnlyInserted(inserted, r))
  }

  function DiffOf(differ: WordDiffer, ops: seq<LineOp>, l: nat, r: nat): Sides
    decreases |ops|
  {
    if ops == [] then Sides([], [])
    else
      match ops[0]
      case Equal(t) =>
        Join(Sides([ContextRow(l + 1, t)], [ContextRow(r + 1, t)]), DiffOf(differ, ops[1..], l + 1, r + 1))
      case Delete(_) =>
        Join(ReplaceBlock(differ, Deleted(ops), Inserted(ops), l, r),
             DiffOf(differ, AfterBlock(ops), l + |Deleted(ops)|, r + |Inserted(ops)|))
      case Insert(t) =>
        Join(OnlyInserted([t], r), DiffOf(differ, ops[1..], l, r + 1))
  }

  // ----- the method ---------------------------------------------------------------------------------

  lemma JoinAssoc(a: Sides, b: Sides, c: Sides)
    ensures Join(Join(a, b), c) == Join(a, Join(b, c))
    ensures Join(a, Sides([], [])) == a
  {
    assert (a.left + b.left) + c.left == a.left + (b.left + c.left);
    assert (a.right + b.right) + c.right == a.right + (b.right + c.right);
    assert a.left + [] == a.left && a.right + [] == a.right;
  }

  /** `compute_diff`. */
  method ComputeDiff(differ: WordDiffer, ops: seq<LineOp>) returns (sides: Sides)
    ensures sides == DiffOf(differ, ops, 0, 0)
  {
    sides := Sides([], []);
    var i: nat, leftNum: nat, rightNum: nat := 0, 0, 0;
    assert ops[0..] == ops;
    while i < |ops|
      invariant i <= |ops|
      invariant Join(sides, DiffOf(differ, ops[i..], leftNum, rightNum)) == DiffOf(differ, ops, 0, 0)
    {
      assert ops[i..][0] == ops[i] && ops[i..][1..] == ops[i + 1..];
      match ops[i] {
        case Equal(t) =>
          EqualStep(differ, sides, ops[i..], leftNum, rightNum);
          leftNum, rightNum := leftNum + 1, rightNum + 1;
          sides := Join(sides, Sides([ContextRow(leftNum, t)], [ContextRow(rightNum, t)]));
          i := i + 1;
        case Delete(_) =>
          sides, i, leftNum, rightNum := EmitBlock(differ, sides, ops, i, leftNum, rightNum);
        case Insert(t) =>
          InsertStep(differ, sides, ops[i..], leftNum, rightNum);
          rightNum := rightNum + 1;
          sides := Join(sides, Sides([Placeholder(AddedLine)],
                                     [ChangedRow(rightNum, AddedLine, t, [WordSegment(t, true)])]));
          i := i + 1;
      }
    }
    JoinAssoc(sides, sides, sides);
  }

  /** The `Delete` arm: a run of deletions and the run of insertions after it. */
  method EmitBlock(differ: WordDiffer, sides0: Sides, ops: seq<LineOp>, i: nat, l0: nat, r0: nat)
    returns (sides: Sides, k: nat, l: nat, r: nat)
    requires i < |ops| && ops[i].Delete?
    ensures i < k <= |ops|
    ensures Join(sides, DiffOf(differ, ops[k..], l, r)) == Join(sides0, DiffOf(differ, ops[i..], l0, r0))
  {
    DeleteStep(differ, sides0, ops[i..], l0, r0);
    var deleted, inserted;
    k, deleted, inserted := CollectBlock(ops, i);
    sides := EmitReplace(differ, sides0, deleted, inserted, l0, r0);
    l, r := l0 + |deleted|, r0 + |inserted|;
  }

  /** The two collecting loops. */
  method CollectBlock(ops: seq<LineOp>, i: nat) returns (k: nat, deleted: seq<string>, inserted: seq<string>)
    requires i < |ops| && ops[i].Delete?
    ensures i < k <= |ops| && ops[k..] == AfterBlock(ops[i..])
    ensures deleted == Deleted(ops[i..]) && inserted == Inserted(ops[i..]) && deleted != []
  {
    var j;
    j, deleted := CollectRun(ops, i, true);
    k, inserted := CollectRun(ops, j, false);
    assert ops[i..][0] == ops[i] && deleted != [];
  }

  lemma EqualStep(differ: WordDiffer, sides: Sides, ops: seq<LineOp>, l: nat, r: nat)
    requires ops != [] && ops[0].Equal?
    ensures
      var t := ops[0].text;
      Join(sides, DiffOf(differ, ops, l, r))
      == Join(Join(sides, Sides([ContextRow(l + 1, t)], [ContextRow(r + 1, t)])),
              DiffOf(differ, ops[1..], l + 1, r + 1))
  {
    JoinAssoc(sides, Sides([ContextRow(l + 1, ops[0].text)], [ContextRow(r + 1, ops[0].text)]),
              DiffOf(differ, ops[1..], l + 1, r + 1));
  }

  lemma DeleteStep(differ: WordDiffer, sides: Sides, ops: seq<LineOp>, l: nat, r: nat)
    requires ops != [] && ops[0].Delete?
    ensures
      Join(sides, DiffOf(differ, ops, l, r))
      == Join(Join(sides, ReplaceBlock(differ, Deleted(ops), Inserted(ops), l, r)),
              DiffOf(differ, AfterBlock(ops), l + |Deleted(ops)|, r + |Inserted(ops)|))
  {
    JoinAssoc(sides, ReplaceBlock(differ, Deleted(ops), Inserted(ops), l, r),
              DiffOf(differ, AfterBlock(ops), l + |Deleted(ops)|, r + |Inserted(ops)|));
  }

  lemma InsertStep(differ: WordDiffer, sides: Sides, ops: seq<LineOp>, l: nat, r: nat)
    requires ops != [] && ops[0].Insert?
    ensures
      var t := ops[0].text;
      Join(sides, DiffOf(differ, ops, l, r))
      == Join(Join(sides, Sides([Placeholder(AddedLine)], [ChangedRow(r + 1, AddedLine, t, [WordSegment(t, true)])])),
              DiffOf(differ, ops[1..], l, r + 1))
  {
    OneInserted(ops[0].text, r);
    JoinAssoc(sides, OnlyInserted([ops[0].text], r), DiffOf(differ, ops[1..], l, r + 1));
  }

  lemma OneInserted(t: string, r: nat)
    ensures OnlyInserted([t], r)
         == Sides([Placeholder(AddedLine)], [ChangedRow(r + 1, AddedLine, t, [WordSegment(t, true)])])
  {
    assert [t][1..] == [];
    JoinAssoc(Sides([Placeholder(AddedLine)], [ChangedRow(r + 1, AddedLine, t, [WordSegment(t, true)])]),
              Sides([], []), Sides([], []));
  }

  /** The inner loop that collects the texts of a run. */
  method CollectRun(ops: seq<LineOp>, i: nat, deletes: bool) returns (j: nat, texts: seq<string>)
    requires i <= |ops|
    ensures i <= j <= |ops| && ops[j..] == AfterRun(ops[i..], deletes) && texts == RunTexts(ops[i..], deletes)
  {
    j, texts := i, [];
    while j < |ops| && InRun(ops[j], deletes)
      invariant i <= j <= |ops|
      invariant AfterRun(ops[j..], deletes) == AfterRun(ops[i..], deletes)
      invariant texts + RunTexts(ops[j..], deletes) == RunTexts(ops[i..], deletes)
    {
      assert ops[j..][0] == ops[j] && ops[j..][1..] == ops[j + 1..];
      texts := texts + [ops[j].text];
      j := j + 1;
    }
    assert texts + [] == texts;
  }

  /** The pairing loop, then the deletions and the insertions that are left. */
  method EmitReplace(differ: WordDiffer, sides0: Sides, deleted: seq<string>, inserted: seq<string>, l0: nat, r0: nat)
    returns (sides: Sides)
    ensures sides == Join(sides0, ReplaceBlock(differ, deleted, inserted, l0, r0))
  {
    sides := sides0;
    var l, r := l0, r0;
    var paired := if |deleted| < |inserted| then |deleted| else |inserted|;
    ghost var all := Join(sides0, ReplaceBlock(differ, deleted, inserted, l0, r0));
    assert deleted[0..] == deleted && inserted[0..] == inserted;
    for k := 0 to paired
      invariant Join(sides, ReplaceBlock(differ, deleted[k..], inserted[k..], l, r)) == all
    {
      PairedStep(differ, sides, deleted, inserted, k, l, r);
      sides, l, r := EmitPair(differ, sides, deleted[k], inserted[k], l, r);
    }
    sides := EmitLeftOver(differ, sides, deleted[paired..], inserted[paired..], l, r);
  }

  /** The body of the pairing loop. */
  method EmitPair(differ: WordDiffer, sides0: Sides, deleted: string, inserted: string, l0: nat, r0: nat)
    returns (sides: Sides, l: nat, r: nat)
    ensures sides == Join(sides0, PairedRow(differ, deleted, inserted, l0, r0)) && l == l0 + 1 && r == r0 + 1
  {
    l, r := l0 + 1, r0 + 1;
    var leftWords := WordDiff(differ, deleted, inserted, true);
    var rightWords := WordDiff(differ, deleted, inserted, false);
    sides := Sides(sides0.left + [ChangedRow(l, RemovedLine, deleted, leftWords)],
                   sides0.right + [ChangedRow(r, AddedLine, inserted, rightWords)]);
  }

  /** The two loops over the texts without a partner. */
  method EmitLeftOver(ghost differ: WordDiffer, sides0: Sides, deleted: seq<string>, inserted: seq<string>, l: nat,
                      r: nat)
    returns (sides: Sides)
    requires deleted == [] || inserted == []
    ensures sides == Join(sides0, ReplaceBlock(differ, deleted, inserted, l, r))
  {
    JoinAssoc(sides0, OnlyDeleted(deleted, l), OnlyInserted(inserted, r));
    sides := EmitDeleted(sides0, deleted, l);
    sides := EmitInserted(sides, inserted, r);
  }

  lemma PairedStep(differ: WordDiffer, sides: Sides, deleted: seq<string>, inserted: seq<string>, k: nat, l: nat,
                   r: nat)
    requires k < |deleted| && k < |inserted|
    ensures Join(sides, ReplaceBlock(differ, deleted[k..], inserted[k..], l, r))
         == Join(Join(sides, PairedRow(differ, deleted[k], inserted[k], l, r)),
                 ReplaceBlock(differ, deleted[k + 1..], inserted[k + 1..], l + 1, r + 1))
  {
    assert deleted[k..][0] == deleted[k] && deleted[k..][1..] == deleted[k + 1..];
    assert inserted[k..][0] == inserted[k] && inserted[k..][1..] == inserted[k + 1..];
    JoinAssoc(sides, PairedRow(differ, deleted[k], inserted[k], l, r),
              ReplaceBlock(differ, deleted[k + 1..], inserted[k + 1..], l + 1, r + 1));
  }

  method EmitDeleted(sides0: Sides, deleted: seq<string>, l0: nat) returns (sides: Sides)
    ensures sides == Join(sides0, OnlyDeleted(deleted, l0))
  {
    sides := sides0;
    for k := 0 to |deleted|
      invariant Join(sides, OnlyDeleted(deleted[k..], l0 + k)) == Join(sides0, OnlyDeleted(deleted, l0))
    {
      var text := deleted[k];
      assert deleted[k..][0] == text && deleted[k..][1..] == deleted[k + 1..];
      JoinAssoc(sides,
                Sides([ChangedRow(l0 + k + 1, RemovedLine, text, [WordSegment(text, true)])],
                      [Placeholder(RemovedLine)]),
                OnlyDeleted(deleted[k + 1..], l0 + k + 1));
      sides := Sides(sides.left + [ChangedRow(l0 + k + 1, RemovedLine, text, [WordSegment(text, true)])],
                     sides.right + [Placeholder(RemovedLine)]);
    }
    JoinAssoc(sides, sides, sides);
  }

  method EmitInserted(sides0: Sides, inserted: seq<string>, r0: nat) returns (sides: Sides)
    ensures sides == Join(sides0, OnlyInserted(inserted, r0))
  {
    sides := sides0;
    for k := 0 to |inserted|
      invariant Join(sides, OnlyInserted(inserted[k..], r0 + k)) == Join(sides0, OnlyInserted(inserted, r0))
    {
      var text := inserted[k];
      assert inserted[k..][0] == text && inserted[k..][1..] == inserted[k + 1..];
      JoinAssoc(sides,
                Sides([Placeholder(AddedLine)], [ChangedRow(r0 + k + 1, AddedLine, text, [WordSegment(text, true)])]),
                OnlyInserted(inserted[k + 1..], r0 + k + 1));
      sides := Sides(sides.left + [Placeholder(AddedLine)],
                     sides.right + [ChangedRow(r0 + k + 1, AddedLine, text, [WordSegment(text, true)])]);
    }
    JoinAssoc(sides, sides, sides);
  }

  // ----- what the columns hold ------------------------------------------------------------------------

  /** The cells of a column with a number are the given lines, numbered n + 1, n + 2, ...; the others
      are empty. */
  predicate Numbered(rows: seq<DiffLine>, lines: seq<string>, n: nat) {
    if rows == [] then lines == []
    else if rows[0].lineNum.None? then rows[0].content == "" && rows[0].words == [] && Numbered(rows[1..], lines, n)
    else
      && lines != [] && rows[0].lineNum == Some(n + 1) && rows[0].content == lines[0]
      && Numbered(rows[1..], lines[1..], n + 1)
  }

  /** The two cells of one row. */
  predicate Opposite(left: DiffLine, right: DiffLine) {
    || (left.kind.ContextLine? && right.kind.ContextLine? && left.content == right.content
        && left.lineNum.Some? && right.lineNum.Some?)
    || (left.kind.RemovedLine? && right.kind.AddedLine? && left.lineNum.Some? && right.lineNum.Some?)
    || (left.kind.RemovedLine? && left.lineNum.Some? && right == Placeholder(RemovedLine))
    || (left == Placeholder(AddedLine) && right.kind.AddedLine? && right.lineNum.Some?)
  }

  predicate Aligned(s: Sides) {
    |s.left| == |s.right| && forall i :: 0 <= i < |s.left| ==> Opposite(s.left[i], s.right[i])
  }

  predicate Holds(s: Sides, leftLines: seq<string>, rightLines: seq<string>, l: nat, r: nat) {
    Aligned(s) && Numbered(s.left, leftLines, l) && Numbered(s.right, rightLines, r)
  }

  lemma {:induction false} NumberedAppend(a: seq<DiffLine>, b: seq<DiffLine>, s: seq<string>, t: seq<string>, n: nat)
    requires Numbered(a, s, n) && Numbered(b, t, n + |s|)
    ensures Numbered(a + b, s + t, n)
  {
    if a == [] {
      assert a + b == b && s + t == t;
    } else {
      assert (a + b)[0] == a[0] && (a + b)[1..] == a[1..] + b;
      if a[0].lineNum.None? {
        NumberedAppend(a[1..], b, s, t, n);
      } else {
        assert (s + t)[0] == s[0] && (s + t)[1..] == s[1..] + t;
        NumberedAppend(a[1..], b, s[1..], t, n + 1);
      }
    }
  }

  lemma AlignedJoin(a: Sides, b: Sides)
    requires Aligned(a) && Aligned(b)
    ensures Aligned(Join(a, b))
  {
  }

  lemma HoldsJoin(a: Sides, b: Sides, ls: seq<string>, lt: seq<string>, rs: seq<string>, rt: seq<string>, l: nat,
                  r: nat)
    requires Holds(a, ls, rs, l, r) && Holds(b, lt, rt, l + |ls|, r + |rs|)
    ensures Holds(Join(a, b), ls + lt, rs + rt, l, r)
  {
    AlignedJoin(a, b);
    NumberedAppend(a.left, b.left, ls, lt, l);
    NumberedAppend(a.right, b.right, rs, rt, r);
  }

  lemma OneRowHolds(left: DiffLine, right: DiffLine, ls: seq<string>, rs: seq<string>, l: nat, r: nat)
    requires Opposite(left, right)
    requires if left.lineNum.None? then ls == [] else ls == [left.content] && left.lineNum == Some(l + 1)
    requires if right.lineNum.None? then rs == [] else rs == [right.content] && right.lineNum == Some(r + 1)
    ensures Holds(Sides([left], [right]), ls, rs, l, r)
  {
    assert [left][1..] == [] && [right][1..] == [];
    assert left.lineNum.Some? ==> ls[1..] == [];
    assert right.lineNum.Some? ==> rs[1..] == [];
  }

  lemma {:induction false} DeletedHolds(deleted: seq<string>, l: nat, r: nat)
    ensures Holds(OnlyDeleted(deleted, l), deleted, [], l, r)
  {
    if deleted != [] {
      var d := deleted[0];
      DeletedHolds(deleted[1..], l + 1, r);
      var row := ChangedRow(l + 1, RemovedLine, d, [WordSegment(d, true)]);
      OneRowHolds(row, Placeholder(RemovedLine), [d], [], l, r);
      HoldsJoin(Sides([row], [Placeholder(RemovedLine)]), OnlyDeleted(deleted[1..], l + 1), [d], deleted[1..], [], [],
                l, r);
      assert [d] + deleted[1..] == deleted;
    }
  }

  lemma {:induction false} InsertedHolds(inserted: seq<string>, l: nat, r: nat)
    ensures Holds(OnlyInserted(inserted, r), [], inserted, l, r)
  {
    if inserted != [] {
      var t := inserted[0];
      InsertedHolds(inserted[1..], l, r + 1);
      var row := ChangedRow(r + 1, AddedLine, t, [WordSegment(t, true)]);
      OneRowHolds(Placeholder(AddedLine), row, [], [t], l, r);
      HoldsJoin(Sides([Placeholder(AddedLine)], [row]), OnlyInserted(inserted[1..], r + 1), [], [], [t], inserted[1..],
                l, r);
      assert [t] + inserted[1..] == inserted;
    }
  }

  lemma {:induction false} ReplaceHolds(differ: WordDiffer, deleted: seq<string>, inserted: seq<string>, l: nat, r: nat)
    ensures Holds(ReplaceBlock(differ, deleted, inserted, l, r), deleted, inserted, l, r)
  {
    if deleted != [] && inserted != [] {
      var d, t := deleted[0], inserted[0];
      ReplaceHolds(differ, deleted[1..], inserted[1..], l + 1, r + 1);
      var row := PairedRow(differ, d, t, l, r);
      OneRowHolds(row.left[0], row.right[0], [d], [t], l, r);
      HoldsJoin(row, ReplaceBlock(differ, deleted[1..], inserted[1..], l + 1, r + 1),
                [d], deleted[1..], [t], inserted[1..], l, r);
      assert [d] + deleted[1..] == deleted && [t] + inserted[1..] == inserted;
    } else {
      DeletedHolds(deleted, l, r);
      InsertedHolds(inserted, l + |deleted|, r);
      HoldsJoin(OnlyDeleted(deleted, l), OnlyInserted(inserted, r), deleted, [], [], inserted, l, r);
      assert deleted + [] == deleted && [] + inserted == inserted;
    }
  }

  lemma Regroup(first: string, run: seq<string>, rest: seq<string>)
    ensures [first] + run + rest == [first] + (run + rest)
  {
  }

  lemma {:induction false} RunLines(ops: seq<LineOp>, deletes: bool)
    ensures LeftLines(ops) == (if deletes then RunTexts(ops, true) else []) + LeftLines(AfterRun(ops, deletes))
    ensures RightLines(ops) == (if deletes then [] else RunTexts(ops, false)) + RightLines(AfterRun(ops, deletes))
  {
    if ops != [] && InRun(ops[0], deletes) {
      RunLines(ops[1..], deletes);
      Regroup(ops[0].text, RunTexts(ops[1..], deletes), LeftLines(AfterRun(ops, deletes)));
      Regroup(ops[0].text, RunTexts(ops[1..], deletes), RightLines(AfterRun(ops, deletes)));
    } else {
      assert [] + LeftLines(ops) == LeftLines(ops) && [] + RightLines(ops) == RightLines(ops);
    }
  }

  lemma BlockLines(ops: seq<LineOp>)
    ensures LeftLines(ops) == Deleted(ops) + LeftLines(AfterBlock(ops))
    ensures RightLines(ops) == Inserted(ops) + RightLines(AfterBlock(ops))
  {
    var rest := AfterRun(ops, true);
    RunLines(ops, true);
    RunLines(rest, false);
    assert [] + RightLines(rest) == RightLines(rest);
    assert [] + LeftLines(AfterRun(rest, false)) == LeftLines(AfterRun(rest, false));
  }

  lemma BlockHolds(differ: WordDiffer, ops: seq<LineOp>, l: nat, r: nat)
    requires ops != [] && ops[0].Delete?
    requires Holds(DiffOf(differ, AfterBlock(ops), l + |Deleted(ops)|, r + |Inserted(ops)|),
                   LeftLines(AfterBlock(ops)), RightLines(AfterBlock(ops)), l + |Deleted(ops)|, r + |Inserted(ops)|)
    ensures Holds(DiffOf(differ, ops, l, r), LeftLines(ops), RightLines(ops), l, r)
  {
    BlockLines(ops);
    ReplaceHolds(differ, Deleted(ops), Inserted(ops), l, r);
    HoldsJoin(ReplaceBlock(differ, Deleted(ops), Inserted(ops), l, r),
              DiffOf(differ, AfterBlock(ops), l + |Deleted(ops)|, r + |Inserted(ops)|),
              Deleted(ops), LeftLines(AfterBlock(ops)), Inserted(ops), RightLines(AfterBlock(ops)), l, r);
  }

  /** For every edit script, the two columns have the same number of rows, every row pairs cells that
      belong together, and the numbered cells of each column are its file, numbered from one. */
  lemma {:induction false} ColumnsHoldFiles(differ: WordDiffer, ops: seq<LineOp>, l: nat, r: nat)
    ensures Holds(DiffOf(differ, ops, l, r), LeftLines(ops), RightLines(ops), l, r)
    decreases |ops|
  {
    if ops != [] {
      var rest := ops[1..];
      match ops[0] {
        case Equal(t) =>
          ColumnsHoldFiles(differ, rest, l + 1, r + 1);
          OneRowHolds(ContextRow(l + 1, t), ContextRow(r + 1, t), [t], [t], l, r);
          HoldsJoin(Sides([ContextRow(l + 1, t)], [ContextRow(r + 1, t)]), DiffOf(differ, rest, l + 1, r + 1),
                    [t], LeftLines(rest), [t], RightLines(rest), l, r);
        case Delete(_) =>
          ColumnsHoldFiles(differ, AfterBlock(ops), l + |Deleted(ops)|, r + |Inserted(ops)|);
          BlockHolds(differ, ops, l, r);
        case Insert(t) =>
          ColumnsHoldFiles(differ, rest, l, r + 1);
          InsertedHolds([t], l, r);
          HoldsJoin(OnlyInserted([t], r), DiffOf(differ, rest, l, r + 1),
                    [], LeftLines(rest), [t], RightLines(rest), l, r);
          assert [] + LeftLines(rest) == LeftLines(rest);
      }
    }
  }
}
