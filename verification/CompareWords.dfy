/** The words of the comparison views: they spell the line they stand for. */
module CompareWords {
  import opened Options
  import opened DiffText
  import opened DiffViewer
  import opened ViewerTheorems
  import opened FileCompare
  import opened UnifiedCompare

  // ----- two columns --------------------------------------------------------------------------------

  predicate SidesSpell(sides: Sides) {
    WordsRebuild(sides.left) && WordsRebuild(sides.right)
  }

  lemma JoinSpells(a: Sides, b: Sides)
    ensures SidesSpell(Join(a, b)) <==> SidesSpell(a) && SidesSpell(b)
  {
    WordsRebuildAppend(a.left, b.left);
    WordsRebuildAppend(a.right, b.right);
  }

  lemma RowSpells(left: DiffLine, right: DiffLine)
    requires Spells(left) && Spells(right)
    ensures SidesSpell(Sides([left], [right]))
  {
  }

  lemma {:induction false} OnlyDeletedSpells(deleted: seq<string>, l: nat)
    ensures SidesSpell(OnlyDeleted(deleted, l))
  {
    if deleted != [] {
      var row := ChangedRow(l + 1, RemovedLine, deleted[0], [WordSegment(deleted[0], true)]);
      OnlyDeletedSpells(deleted[1..], l + 1);
      OneSegment(deleted[0], true);
      RowSpells(row, Placeholder(RemovedLine));
      JoinSpells(Sides([row], [Placeholder(RemovedLine)]), OnlyDeleted(deleted[1..], l + 1));
    }
  }

  lemma {:induction false} OnlyInsertedSpells(inserted: seq<string>, r: nat)
    ensures SidesSpell(OnlyInserted(inserted, r))
  {
    if inserted != [] {
      var row := ChangedRow(r + 1, AddedLine, inserted[0], [WordSegment(inserted[0], true)]);
      OnlyInsertedSpells(inserted[1..], r + 1);
      OneSegment(inserted[0], true);
      RowSpells(Placeholder(AddedLine), row);
      JoinSpells(Sides([Placeholder(AddedLine)], [row]), OnlyInserted(inserted[1..], r + 1));
    }
  }

  lemma {:induction false} ReplaceSpells(differ: WordDiffer, deleted: seq<string>, inserted: seq<string>, l: nat,
                                         r: nat)
    requires FaithfulDiffer(differ)
    ensures SidesSpell(ReplaceBlock(differ, deleted, inserted, l, r))
  {
    if deleted != [] && inserted != [] {
      var row := PairedRow(differ, deleted[0], inserted[0], l, r);
      ReplaceSpells(differ, deleted[1..], inserted[1..], l + 1, r + 1);
      WordsRebuildLine(differ, deleted[0], inserted[0]);
      RowSpells(row.left[0], row.right[0]);
      JoinSpells(row, ReplaceBlock(differ, deleted[1..], inserted[1..], l + 1, r + 1));
    } else {
      OnlyDeletedSpells(deleted, l);
      OnlyInsertedSpells(inserted, r);
      JoinSpells(OnlyDeleted(deleted, l), OnlyInserted(inserted, r));
    }
  }

  lemma EqualSpells(text: string, l: nat, r: nat, rest: Sides)
    requires SidesSpell(rest)
    ensures SidesSpell(Join(Sides([ContextRow(l + 1, text)], [ContextRow(r + 1, text)]), rest))
  {
    OneSegment(text, false);
    RowSpells(ContextRow(l + 1, text), ContextRow(r + 1, text));
    JoinSpells(Sides([ContextRow(l + 1, text)], [ContextRow(r + 1, text)]), rest);
  }

  lemma BlockSpells(differ: WordDiffer, deleted: seq<string>, inserted: seq<string>, l: nat, r: nat, rest: Sides)
    requires FaithfulDiffer(differ) && SidesSpell(rest)
    ensures SidesSpell(Join(ReplaceBlock(differ, deleted, inserted, l, r), rest))
  {
    ReplaceSpells(differ, deleted, inserted, l, r);
    JoinSpells(ReplaceBlock(differ, deleted, inserted, l, r), rest);
  }

  lemma InsertSpells(text: string, r: nat, rest: Sides)
    requires SidesSpell(rest)
    ensures SidesSpell(Join(OnlyInserted([text], r), rest))
  {
    OnlyInsertedSpells([text], r);
    JoinSpells(OnlyInserted([text], r), rest);
  }

  /** With a faithful differ, the words of every cell of the two columns concatenate to its line. */
  lemma {:induction false} ColumnsSpellLines(differ: WordDiffer, ops: seq<LineOp>, l: nat, r: nat)
    requires FaithfulDiffer(differ)
    ensures SidesSpell(DiffOf(differ, ops, l, r))
    decreases |ops|
  {
    if ops != [] {
      match ops[0] {
        case Equal(t) =>
          ColumnsSpellLines(differ, ops[1..], l + 1, r + 1);
          EqualSpells(t, l, r, DiffOf(differ, ops[1..], l + 1, r + 1));
        case Delete(_) =>
          var d, n := |Deleted(ops)|, |Inserted(ops)|;
          ColumnsSpellLines(differ, AfterBlock(ops), l + d, r + n);
          BlockSpells(differ, Deleted(ops), Inserted(ops), l, r, DiffOf(differ, AfterBlock(ops), l + d, r + n));
        case Insert(t) =>
          ColumnsSpellLines(differ, ops[1..], l, r + 1);
          InsertSpells(t, r, DiffOf(differ, ops[1..], l, r + 1));
      }
    }
  }

  // ----- one column ---------------------------------------------------------------------------------

  lemma RemovedRowSpells(differ: WordDiffer, n: nat, text: string, partner: Option<string>)
    requires FaithfulDiffer(differ)
    ensures Spells(RemovedRow(differ, n, text, partner)) && Spells(AddedRow(differ, n, text, partner))
  {
    OneSegment(text, true);
    if partner.Some? {
      WordsRebuildLine(differ, text, partner.value);
      WordsRebuildLine(differ, partner.value, text);
    }
  }

  lemma {:induction false} RemovedRowsSpell(differ: WordDiffer, deleted: seq<string>, inserted: seq<string>, l: nat)
    requires FaithfulDiffer(differ)
    ensures WordsRebuild(RemovedRows(differ, deleted, inserted, l))
  {
    if deleted != [] {
      RemovedRowsSpell(differ, deleted[1..], Rest(inserted), l + 1);
      RemovedRowSpells(differ, l + 1, deleted[0], Partner(inserted, 0));
    }
  }

  lemma {:induction false} AddedRowsSpell(differ: WordDiffer, deleted: seq<string>, inserted: seq<string>, r: nat)
    requires FaithfulDiffer(differ)
    ensures WordsRebuild(AddedRows(differ, deleted, inserted, r))
  {
    if inserted != [] {
      AddedRowsSpell(differ, Rest(deleted), inserted[1..], r + 1);
      RemovedRowSpells(differ, r + 1, inserted[0], Partner(deleted, 0));
    }
  }

  lemma FirstSpells(differ: WordDiffer, ops: seq<LineOp>, l: nat, r: nat, base: nat)
    requires FaithfulDiffer(differ) && ops != []
    ensures WordsRebuild(FirstPart(differ, ops, l, r, base).lines)
  {
    match ops[0] {
      case Equal(t) =>
        OneSegment(t, false);
      case Delete(_) =>
        RemovedRowsSpell(differ, Deleted(ops), Inserted(ops), l);
        AddedRowsSpell(differ, Deleted(ops), Inserted(ops), r);
        WordsRebuildAppend(RemovedRows(differ, Deleted(ops), Inserted(ops), l),
                           AddedRows(differ, Deleted(ops), Inserted(ops), r));
      case Insert(t) =>
        OneSegment(t, true);
    }
  }

  /** With a faithful differ, the words of every row of the one column concatenate to its line. */
  lemma {:induction false} RowsSpellLines(differ: WordDiffer, ops: seq<LineOp>, l: nat, r: nat, base: nat,
                                          diff: UnifiedDiff)
    requires FaithfulDiffer(differ) && diff == UnifiedOf(differ, ops, l, r, base)
    ensures WordsRebuild(diff.lines)
    decreases |ops|
  {
    if ops != [] {
      var after, l', r', base' := AfterFirst(ops), l + LeftCount(ops), r + RightCount(ops), base + RowCount(ops);
      var rest := UnifiedOf(differ, after, l', r', base');
      RowsSpellLines(differ, after, l', r', base', rest);
      FirstSpells(differ, ops, l, r, base);
      WordsRebuildAppend(FirstPart(differ, ops, l, r, base).lines, rest.lines);
    }
  }
}
