/** Which rows of the one-column comparison are shown, and how the hidden ones are folded
    (`render_unified_lines` of web/dashboard/src/components/file_compare.rs). */
module VisibleRows {
  import opened Options
  import opened DiffViewer
  import opened FileCompare
  import opened UnifiedCompare
  import opened UnifiedView

  datatype Format = FullFile | Context | Unified

  const CONTEXT_ROWS: nat := 3

  /** A shown row, with the change it is the target of, or a fold of hidden rows. */
  datatype Cell = Shown(row: nat, marker: Option<nat>) | Fold(count: nat, key: nat)

  // ----- visible rows -------------------------------------------------------------------------------

  function Minus(a: nat, b: nat): nat {
    if a < b then 0 else a - b
  }

  predicate InGroup(g: ChangeGroup, j: nat) {
    g.start <= j <= g.end
  }

  predicate NearGroup(g: ChangeGroup, j: nat, n: nat) {
    Minus(g.start, CONTEXT_ROWS) <= j && j <= g.end + CONTEXT_ROWS && j <= Minus(n, 1)
  }

  predicate InSome(groups: seq<ChangeGroup>, j: nat) {
    groups != [] && (InGroup(groups[0], j) || InSome(groups[1..], j))
  }

  predicate NearSome(groups: seq<ChangeGroup>, j: nat, n: nat) {
    groups != [] && (NearGroup(groups[0], j, n) || NearSome(groups[1..], j, n))
  }

  predicate Visible(format: Format, groups: seq<ChangeGroup>, n: nat, j: nat) {
    match format
    case FullFile => j < n
    case Context => NearSome(groups, j, n)
    case Unified => InSome(groups, j)
  }

  lemma {:induction false} InSomeAppend(a: seq<ChangeGroup>, g: ChangeGroup, j: nat)
    ensures InSome(a + [g], j) <==> InSome(a, j) || InGroup(g, j)
  {
    if a == [] {
      assert a + [g] == [g] && [g][1..] == [];
    } else {
      assert (a + [g])[0] == a[0] && (a + [g])[1..] == a[1..] + [g];
      InSomeAppend(a[1..], g, j);
    }
  }

  lemma {:induction false} NearSomeAppend(a: seq<ChangeGroup>, g: ChangeGroup, j: nat, n: nat)
    ensures NearSome(a + [g], j, n) <==> NearSome(a, j, n) || NearGroup(g, j, n)
  {
    if a == [] {
      assert a + [g] == [g] && [g][1..] == [];
    } else {
      assert (a + [g])[0] == a[0] && (a + [g])[1..] == a[1..] + [g];
      NearSomeAppend(a[1..], g, j, n);
    }
  }

  method InsertRange(rows: set<nat>, first: nat, last: nat) returns (wider: set<nat>)
    ensures forall j: nat :: j in wider <==> j in rows || first <= j <= last
  {
    wider := rows;
    var j := first;
    while j <= last
      invariant first <= j
      invariant j <= last + 1 || j == first
      invariant forall k: nat :: k in wider <==> k in rows || (first <= k < j)
    {
      wider := wider + {j};
      j := j + 1;
    }
  }

  method VisibleRowSet(n: nat, format: Format, groups: seq<ChangeGroup>) returns (visible: set<nat>)
    ensures forall j: nat :: j in visible <==> Visible(format, groups, n, j)
  {
    visible := {};
    if format.FullFile? {
      if n > 0 {
        visible := InsertRange(visible, 0, n - 1);
      }
      return;
    }
    var i := 0;
    assert groups[..0] == [];
    while i < |groups|
      invariant i <= |groups|
      invariant forall j: nat :: j in visible <==> Visible(format, groups[..i], n, j)
    {
      var g := groups[i];
      ghost var before := visible;
      assert groups[..i + 1] == groups[..i] + [g];
      if format.Context? {
        var first := Minus(g.start, CONTEXT_ROWS);
        var last := if g.end + CONTEXT_ROWS < Minus(n, 1) then g.end + CONTEXT_ROWS else Minus(n, 1);
        visible := InsertRange(visible, first, last);
        forall j: nat ensures j in visible <==> Visible(format, groups[..i + 1], n, j) {
          NearSomeAppend(groups[..i], g, j, n);
        }
      } else {
        visible := InsertRange(visible, g.start, g.end);
        forall j: nat ensures j in visible <==> Visible(format, groups[..i + 1], n, j) {
          InSomeAppend(groups[..i], g, j);
        }
      }
      i := i + 1;
    }
    assert groups[..i] == groups;
  }

  // ----- shown rows and folds -----------------------------------------------------------------------

  /** The first group that holds row j, if that group starts there. */
  function MarkerFrom(groups: seq<ChangeGroup>, j: nat, id: nat): Option<nat> {
    if groups == [] then None
    else if InGroup(groups[0], j) then (if groups[0].start == j then Some(id) else None)
    else MarkerFrom(groups[1..], j, id + 1)
  }

  /** The rows from `from` to `upto` are shown or folded: a shown row is visible; a fold holds at least
      one row, all of them hidden, and reaches up to a visible row or the end; its key is its first row. */
  predicate Tiles(cells: seq<Cell>, from: nat, upto: nat, n: nat, visible: set<nat>, groups: seq<ChangeGroup>) {
    if cells == [] then from == upto
    else
      match cells[0]
      case Shown(row, marker) =>
        && row == from < upto && row in visible && marker == MarkerFrom(groups, row, 0)
        && Tiles(cells[1..], from + 1, upto, n, visible, groups)
      case Fold(count, key) =>
        && key == from && count > 0 && from + count <= upto
        && (forall j :: from <= j < from + count ==> j !in visible)
        && (from + count == n || from + count in visible)
        && Tiles(cells[1..], from + count, upto, n, visible, groups)
  }

  lemma {:induction false} TilesAppend(a: seq<Cell>, b: seq<Cell>, from: nat, mid: nat, upto: nat, n: nat,
                                       visible: set<nat>, groups: seq<ChangeGroup>)
    requires Tiles(a, from, mid, n, visible, groups) && Tiles(b, mid, upto, n, visible, groups) && mid <= upto
    ensures Tiles(a + b, from, upto, n, visible, groups)
  {
    if a == [] {
      assert a + b == b;
    } else {
      assert (a + b)[0] == a[0] && (a + b)[1..] == a[1..] + b;
      TilesAppend(a[1..], b, from + (if a[0].Shown? then 1 else a[0].count), mid, upto, n, visible, groups);
    }
  }

  lemma TilesOne(cell: Cell, from: nat, upto: nat, n: nat, visible: set<nat>, groups: seq<ChangeGroup>)
    requires cell.Shown? ==> cell == Shown(from, MarkerFrom(groups, from, 0)) && from in visible && upto == from + 1
    requires cell.Fold? ==>
      && cell.key == from && cell.count > 0 && upto == from + cell.count
      && (forall j :: from <= j < upto ==> j !in visible) && (upto == n || upto in visible)
    ensures Tiles([cell], from, upto, n, visible, groups)
  {
    assert [cell][0] == cell && [cell][1..] == [];
  }

  method FindMarker(groups: seq<ChangeGroup>, j: nat) returns (marker: Option<nat>)
    ensures marker == MarkerFrom(groups, j, 0)
  {
    var id := 0;
    while id < |groups| && !InGroup(groups[id], j)
      invariant id <= |groups|
      invariant MarkerFrom(groups, j, 0) == MarkerFrom(groups[id..], j, id)
    {
      assert groups[id..][1..] == groups[id + 1..];
      id := id + 1;
    }
    marker := if id < |groups| && groups[id].start == j then Some(id) else None;
  }

  method EmitFold(cells: seq<Cell>, lastShown: Option<nat>, skipped: nat, ghost at: nat, ghost n: nat,
                  ghost visible: set<nat>, ghost groups: seq<ChangeGroup>) returns (more: seq<Cell>)
    requires skipped <= at && Tiles(cells, 0, at - skipped, n, visible, groups)
    requires lastShown == if at == skipped then None else Some(at - skipped - 1)
    requires forall j :: at - skipped <= j < at ==> j !in visible
    requires at == n || at in visible
    ensures Tiles(more, 0, at, n, visible, groups)
  {
    more := cells;
    if skipped > 0 {
      var fold := Fold(skipped, if lastShown.Some? then lastShown.value + 1 else 0);
      TilesOne(fold, at - skipped, at, n, visible, groups);
      TilesAppend(cells, [fold], 0, at - skipped, at, n, visible, groups);
      more := cells + [fold];
    }
  }

  method RenderRows(n: nat, visible: set<nat>, groups: seq<ChangeGroup>) returns (cells: seq<Cell>)
    ensures Tiles(cells, 0, n, n, visible, groups)
  {
    cells := [];
    var lastShown: Option<nat> := None;
    var skipped: nat := 0;
    var i: nat := 0;
    while i < n
      invariant skipped <= i <= n
      invariant Tiles(cells, 0, i - skipped, n, visible, groups)
      invariant lastShown == if i == skipped then None else Some(i - skipped - 1)
      invariant forall j :: i - skipped <= j < i ==> j !in visible
    {
      if i !in visible {
        skipped := skipped + 1;
      } else {
        var before := EmitFold(cells, lastShown, skipped, i, n, visible, groups);
        var marker := FindMarker(groups, i);
        TilesOne(Shown(i, marker), i, i + 1, n, visible, groups);
        TilesAppend(before, [Shown(i, marker)], 0, i, i + 1, n, visible, groups);
        cells := before + [Shown(i, marker)];
        skipped := 0;
        lastShown := Some(i);
      }
      i := i + 1;
    }
    cells := EmitFold(cells, lastShown, skipped, n, n, visible, groups);
  }

  // ----- what the formats show ----------------------------------------------------------------------

  lemma {:induction false} NoneChangedAt(rows: seq<DiffLine>, j: nat)
    requires NoneChanged(rows) && j < |rows|
    ensures !IsChanged(rows[j])
  {
    if j > 0 {
      NoneChangedAt(rows[1..], j - 1);
    }
  }

  lemma {:induction false} AllChangedAt(rows: seq<DiffLine>, j: nat)
    requires AllChanged(rows) && j < |rows|
    ensures IsChanged(rows[j])
  {
    if j > 0 {
      AllChangedAt(rows[1..], j - 1);
    }
  }

  lemma {:induction false} GroupsFollow(rows: seq<DiffLine>, groups: seq<ChangeGroup>, base: nat, j: nat)
    requires Covers(rows, groups, base) && InSome(groups, j)
    ensures base <= j < base + |rows|
    decreases groups
  {
    if !InGroup(groups[0], j) {
      GroupsFollow(rows[groups[0].end + 1 - base..], groups[1..], groups[0].end + 1, j);
    }
  }

  lemma LeadsAt(rows: seq<DiffLine>, g: ChangeGroup, base: nat, j: nat)
    requires Leads(rows, g, base) && base <= j <= g.end
    ensures IsChanged(rows[j - base]) <==> g.start <= j
  {
    if j < g.start {
      NoneChangedAt(rows[..g.start - base], j - base);
    } else {
      AllChangedAt(rows[g.start - base..g.end + 1 - base], j - g.start);
    }
  }

  /** A row is changed if and only if it is in a group. */
  lemma {:induction false} ChangedIffInGroup(rows: seq<DiffLine>, groups: seq<ChangeGroup>, base: nat, j: nat)
    requires Covers(rows, groups, base) && base <= j < base + |rows|
    ensures IsChanged(rows[j - base]) <==> InSome(groups, j)
    decreases groups
  {
    if groups == [] {
      NoneChangedAt(rows, j - base);
    } else {
      var g := groups[0];
      var rest := rows[g.end + 1 - base..];
      if j <= g.end {
        LeadsAt(rows, g, base, j);
        if InSome(groups[1..], j) {
          GroupsFollow(rest, groups[1..], g.end + 1, j);
        }
      } else {
        ChangedIffInGroup(rest, groups[1..], g.end + 1, j);
        assert rest[j - g.end - 1] == rows[j - base];
      }
    }
  }

  predicate Within(i: nat, j: nat, reach: nat) {
    i <= j + reach && j <= i + reach
  }

  /** The groups follow each other, from row `base` to before row `n`. */
  predicate Ordered(groups: seq<ChangeGroup>, base: nat, n: nat) {
    groups == []
    || (base <= groups[0].start <= groups[0].end < n && Ordered(groups[1..], groups[0].end + 1, n))
  }

  lemma {:induction false} CoversOrdered(rows: seq<DiffLine>, groups: seq<ChangeGroup>, base: nat, n: nat)
    requires Covers(rows, groups, base) && n == base + |rows|
    ensures Ordered(groups, base, n)
    decreases groups
  {
    if groups != [] {
      CoversOrdered(rows[groups[0].end + 1 - base..], groups[1..], groups[0].end + 1, n);
    }
  }

  lemma {:induction false} NearMember(groups: seq<ChangeGroup>, base: nat, j: nat, n: nat) returns (i: nat)
    requires Ordered(groups, base, n) && NearSome(groups, j, n)
    ensures InSome(groups, i) && Within(i, j, CONTEXT_ROWS) && base <= i < n
  {
    var g := groups[0];
    if NearGroup(g, j, n) {
      i := if j < g.start then g.start else if j > g.end then g.end else j;
    } else {
      i := NearMember(groups[1..], g.end + 1, j, n);
    }
  }

  lemma {:induction false} MemberNear(groups: seq<ChangeGroup>, i: nat, j: nat, n: nat)
    requires InSome(groups, i) && Within(i, j, CONTEXT_ROWS) && j < n
    ensures NearSome(groups, j, n)
  {
    if !InGroup(groups[0], i) {
      MemberNear(groups[1..], i, j, n);
    }
  }

  /** The row is what each format promises to show: anything; a row at most three rows from a change;
      a changed row. */
  predicate Wanted(format: Format, rows: seq<DiffLine>, j: nat) {
    j < |rows| &&
    match format
    case FullFile => true
    case Context => exists i: nat :: i < |rows| && Within(i, j, 3) && IsChanged(rows[i])
    case Unified => IsChanged(rows[j])
  }

  lemma ContextShowsNeighbours(rows: seq<DiffLine>, groups: seq<ChangeGroup>, j: nat)
    requires Covers(rows, groups, 0) && j < |rows|
    ensures NearSome(groups, j, |rows|)
            <==> exists i: nat :: i < |rows| && Within(i, j, 3) && IsChanged(rows[i])
  {
    if NearSome(groups, j, |rows|) {
      CoversOrdered(rows, groups, 0, |rows|);
      var i := NearMember(groups, 0, j, |rows|);
      ChangedIffInGroup(rows, groups, 0, i);
    }
    if i: nat :| i < |rows| && Within(i, j, 3) && IsChanged(rows[i]) {
      ChangedIffInGroup(rows, groups, 0, i);
      MemberNear(groups, i, j, |rows|);
    }
  }

  lemma {:induction false} NearIsRow(groups: seq<ChangeGroup>, j: nat, n: nat)
    requires NearSome(groups, j, n)
    ensures j <= Minus(n, 1)
  {
    if !NearGroup(groups[0], j, n) {
      NearIsRow(groups[1..], j, n);
    }
  }

  /** For every edit script, each format shows exactly the rows it promises. */
  lemma FormatsShowWhatTheyPromise(differ: WordDiffer, ops: seq<LineOp>, format: Format, diff: UnifiedDiff, j: nat)
    requires diff == UnifiedOf(differ, ops, 0, 0, 0)
    ensures Visible(format, diff.groups, |diff.lines|, j) <==> Wanted(format, diff.lines, j)
  {
    var rows, groups := diff.lines, diff.groups;
    GroupsCoverChanges(differ, ops, 0, 0, 0, diff);
    match format {
      case FullFile =>
      case Unified =>
        if j < |rows| {
          ChangedIffInGroup(rows, groups, 0, j);
        } else if InSome(groups, j) {
          GroupsFollow(rows, groups, 0, j);
        }
      case Context =>
        if NearSome(groups, j, |rows|) {
          CoversOrdered(rows, groups, 0, |rows|);
          var _ := NearMember(groups, 0, j, |rows|);
          NearIsRow(groups, j, |rows|);
        }
        if j < |rows| {
          ContextShowsNeighbours(rows, groups, j);
        }
    }
  }

  /** A changed row is never folded away, in any format: "unchanged lines hidden" is true. */
  lemma FoldsHideOnlyContext(differ: WordDiffer, ops: seq<LineOp>, format: Format, diff: UnifiedDiff, j: nat)
    requires diff == UnifiedOf(differ, ops, 0, 0, 0) && j < |diff.lines| && IsChanged(diff.lines[j])
    ensures Visible(format, diff.groups, |diff.lines|, j)
  {
    FormatsShowWhatTheyPromise(differ, ops, format, diff, j);
    assert Within(j, j, CONTEXT_ROWS);
  }

  lemma {:induction false} StartsAscend(groups: seq<ChangeGroup>, base: nat, n: nat, k: nat)
    requires Ordered(groups, base, n) && k < |groups|
    ensures groups[k].start >= base
    ensures InSome(groups, groups[k].start)
  {
    if k > 0 {
      StartsAscend(groups[1..], groups[0].end + 1, n, k - 1);
    }
  }

  lemma {:induction false} MarkersAscend(groups: seq<ChangeGroup>, base: nat, n: nat, id: nat, k: nat)
    requires Ordered(groups, base, n) && k < |groups|
    ensures MarkerFrom(groups, groups[k].start, id) == Some(id + k)
  {
    if k > 0 {
      StartsAscend(groups[1..], groups[0].end + 1, n, k - 1);
      MarkersAscend(groups[1..], groups[0].end + 1, n, id + 1, k - 1);
    }
  }

  lemma {:induction false} MarkerIsStart(groups: seq<ChangeGroup>, j: nat, id: nat)
    ensures MarkerFrom(groups, j, id).Some? ==>
              id <= MarkerFrom(groups, j, id).value < id + |groups|
                && groups[MarkerFrom(groups, j, id).value - id].start == j
  {
    if groups != [] && !InGroup(groups[0], j) {
      MarkerIsStart(groups[1..], j, id + 1);
    }
  }

  lemma MarkerIffStart(rows: seq<DiffLine>, groups: seq<ChangeGroup>, k: nat, j: nat)
    requires Covers(rows, groups, 0) && k < |groups|
    ensures MarkerFrom(groups, j, 0) == Some(k) <==> j == groups[k].start
  {
    CoversOrdered(rows, groups, 0, |rows|);
    MarkersAscend(groups, 0, |rows|, 0, k);
    MarkerIsStart(groups, j, 0);
  }

  lemma StartIsChanged(rows: seq<DiffLine>, groups: seq<ChangeGroup>, k: nat)
    requires Covers(rows, groups, 0) && k < |groups|
    ensures groups[k].start < |rows| && IsChanged(rows[groups[k].start])
  {
    CoversOrdered(rows, groups, 0, |rows|);
    StartsAscend(groups, 0, |rows|, k);
    GroupsFollow(rows, groups, 0, groups[k].start);
    ChangedIffInGroup(rows, groups, 0, groups[k].start);
  }

  lemma StartIsVisible(differ: WordDiffer, ops: seq<LineOp>, format: Format, diff: UnifiedDiff, k: nat)
    requires diff == UnifiedOf(differ, ops, 0, 0, 0) && k < |diff.groups|
    ensures Visible(format, diff.groups, |diff.lines|, diff.groups[k].start)
  {
    var rows, groups := diff.lines, diff.groups;
    GroupsCoverChanges(differ, ops, 0, 0, 0, diff);
    StartIsChanged(rows, groups, k);
    FoldsHideOnlyContext(differ, ops, format, diff, groups[k].start);
  }

  /** Each change has exactly one target row, its first, and every format shows it. */
  lemma EachChangeHasOneTarget(differ: WordDiffer, ops: seq<LineOp>, format: Format, diff: UnifiedDiff, k: nat, j: nat)
    requires diff == UnifiedOf(differ, ops, 0, 0, 0) && k < |diff.groups|
    ensures MarkerFrom(diff.groups, j, 0) == Some(k) <==> j == diff.groups[k].start
    ensures Visible(format, diff.groups, |diff.lines|, diff.groups[k].start)
  {
    GroupsCoverChanges(differ, ops, 0, 0, 0, diff);
    MarkerIffStart(diff.lines, diff.groups, k, j);
    StartIsVisible(differ, ops, format, diff, k);
  }
}
