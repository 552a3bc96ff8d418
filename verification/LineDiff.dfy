/** The fallback of crates/config-diff/src/difftastic.rs when difftastic is missing (`line_diff`): lines are
    compared by their position. */
module LineDiff {
  import opened Options
  import opened EditScripts
  import opened DiffText
  import opened Patches
  import opened Rendering

  /** Line i of `lines` is not line i of `others`. */
  predicate Differs(lines: Lines, others: Lines, i: nat)
    requires i < |lines|
  {
    i >= |others| || others[i] != lines[i]
  }

  function AddedFrom(prev: Lines, curr: Lines, i: nat): seq<Entry>
    decreases |curr| - i
  {
    if i >= |curr| then [] else (if Differs(curr, prev, i) then [Added(i)] else []) + AddedFrom(prev, curr, i + 1)
  }

  function RemovedFrom(prev: Lines, curr: Lines, i: nat): seq<Entry>
    decreases |prev| - i
  {
    if i >= |prev| then [] else (if Differs(prev, curr, i) then [Removed(i)] else []) + RemovedFrom(prev, curr, i + 1)
  }

  function LineDiffOf(previous: string, current: string): DiffOutput {
    if previous == current then Unchanged
    else
      var prev, curr := LinesOf(previous), LinesOf(current);
      Changed(PREFIX_UNIFIED + EntriesText(AddedFrom(prev, curr, 0), prev, curr)
              + EntriesText(RemovedFrom(prev, curr, 0), prev, curr),
              |AddedFrom(prev, curr, 0)|, |RemovedFrom(prev, curr, 0)|)
  }

  lemma AddedStep(prev: Lines, curr: Lines, i: nat)
    requires i < |curr|
    ensures EntriesText(AddedFrom(prev, curr, i), prev, curr)
         == (if Differs(curr, prev, i) then FormatLine(i + 1, "+", curr[i]) else "")
            + EntriesText(AddedFrom(prev, curr, i + 1), prev, curr)
  {
    if Differs(curr, prev, i) {
      EntriesTextAppend([Added(i)], AddedFrom(prev, curr, i + 1), prev, curr);
      EntriesTextOne(Added(i), prev, curr);
      FormatsEntry(Added(i), prev, curr);
    } else {
      assert [] + AddedFrom(prev, curr, i + 1) == AddedFrom(prev, curr, i + 1);
      assert "" + EntriesText(AddedFrom(prev, curr, i + 1), prev, curr)
             == EntriesText(AddedFrom(prev, curr, i + 1), prev, curr);
    }
  }

  lemma RemovedStep(prev: Lines, curr: Lines, i: nat)
    requires i < |prev|
    ensures EntriesText(RemovedFrom(prev, curr, i), prev, curr)
         == (if Differs(prev, curr, i) then FormatLine(i + 1, "-", prev[i]) else "")
            + EntriesText(RemovedFrom(prev, curr, i + 1), prev, curr)
  {
    if Differs(prev, curr, i) {
      EntriesTextAppend([Removed(i)], RemovedFrom(prev, curr, i + 1), prev, curr);
      EntriesTextOne(Removed(i), prev, curr);
      FormatsEntry(Removed(i), prev, curr);
    } else {
      assert [] + RemovedFrom(prev, curr, i + 1) == RemovedFrom(prev, curr, i + 1);
      assert "" + EntriesText(RemovedFrom(prev, curr, i + 1), prev, curr)
             == EntriesText(RemovedFrom(prev, curr, i + 1), prev, curr);
    }
  }

  lemma TextRegroup(a: string, b: string, c: string)
    ensures a + (b + c) == a + b + c && a + "" == a
  {
  }

  method RenderAdded(prev: Lines, curr: Lines, before: string) returns (render: string, added: nat)
    ensures render == before + EntriesText(AddedFrom(prev, curr, 0), prev, curr) && added == |AddedFrom(prev, curr, 0)|
  {
    render, added := before, 0;
    ghost var goal := before + EntriesText(AddedFrom(prev, curr, 0), prev, curr);
    for i := 0 to |curr|
      invariant render + EntriesText(AddedFrom(prev, curr, i), prev, curr) == goal
      invariant added + |AddedFrom(prev, curr, i)| == |AddedFrom(prev, curr, 0)|
    {
      AddedStep(prev, curr, i);
      ghost var rest := EntriesText(AddedFrom(prev, curr, i + 1), prev, curr);
      if Differs(curr, prev, i) {
        var line := FormatLine(i + 1, "+", curr[i]);
        TextRegroup(render, line, rest);
        render := render + line;
        added := added + 1;
      } else {
        TextRegroup(render, "", rest);
      }
    }
    assert render + "" == render;
  }

  method RenderRemoved(prev: Lines, curr: Lines, before: string) returns (render: string, removed: nat)
    ensures render == before + EntriesText(RemovedFrom(prev, curr, 0), prev, curr)
            && removed == |RemovedFrom(prev, curr, 0)|
  {
    render, removed := before, 0;
    ghost var goal := before + EntriesText(RemovedFrom(prev, curr, 0), prev, curr);
    for i := 0 to |prev|
      invariant render + EntriesText(RemovedFrom(prev, curr, i), prev, curr) == goal
      invariant removed + |RemovedFrom(prev, curr, i)| == |RemovedFrom(prev, curr, 0)|
    {
      RemovedStep(prev, curr, i);
      ghost var rest := EntriesText(RemovedFrom(prev, curr, i + 1), prev, curr);
      if Differs(prev, curr, i) {
        var line := FormatLine(i + 1, "-", prev[i]);
        TextRegroup(render, line, rest);
        render := render + line;
        removed := removed + 1;
      } else {
        TextRegroup(render, "", rest);
      }
    }
    assert render + "" == render;
  }

  /** Unchanged for equal texts only: the format prefix alone already makes the rendering not blank. */
  method DiffLines(previous: string, current: string) returns (output: DiffOutput)
    ensures output == LineDiffOf(previous, current)
  {
    if previous == current {
      return Unchanged;
    }
    var prev, curr := LinesOf(previous), LinesOf(current);
    var added, removed, render;
    render, added := RenderAdded(prev, curr, PREFIX_UNIFIED);
    render, removed := RenderRemoved(prev, curr, render);
    NeverBlank(render);
    if Trim(render) == "" {
      assert false;
      return Unchanged;
    }
    output := Changed(render, added, removed);
  }

  // ----- the rows tell one file from the other ----------------------------------------------------------

  /** The text of the row with this kind and number, if there is one. */
  function TextAt(rows: seq<Row>, kind: LineKind, number: nat): Option<string> {
    if rows == [] then None
    else if rows[0].kind == kind && rows[0].number == number then Some(rows[0].content)
    else TextAt(rows[1..], kind, number)
  }

  /** The first `count` lines of a file, by the rows of one kind where there are any, and by `base` elsewhere. */
  function Overlaid(base: Lines, rows: seq<Row>, kind: LineKind, count: nat): Lines {
    seq(count, i requires 0 <= i < count =>
      if TextAt(rows, kind, i + 1).Some? then TextAt(rows, kind, i + 1).value else LineAt(base, i))
  }

  /** The rows of a line diff: the added lines, then the removed ones. */
  function LineDiffRows(prev: Lines, curr: Lines): seq<Row> {
    RowsOf(AddedFrom(prev, curr, 0), prev, curr) + RowsOf(RemovedFrom(prev, curr, 0), prev, curr)
  }

  lemma {:induction false} TextAtAppend(a: seq<Row>, b: seq<Row>, kind: LineKind, number: nat)
    ensures TextAt(a + b, kind, number)
         == (if TextAt(a, kind, number).Some? then TextAt(a, kind, number) else TextAt(b, kind, number))
  {
    if a == [] {
      assert a + b == b;
    } else {
      assert (a + b)[0] == a[0] && (a + b)[1..] == a[1..] + b;
      TextAtAppend(a[1..], b, kind, number);
    }
  }

  lemma TextAtCons(row: Row, rows: seq<Row>, kind: LineKind, number: nat)
    ensures TextAt([row] + rows, kind, number)
         == if row.kind == kind && row.number == number then Some(row.content) else TextAt(rows, kind, number)
  {
    assert ([row] + rows)[0] == row && ([row] + rows)[1..] == rows;
  }

  lemma {:induction false} AddedTextAt(prev: Lines, curr: Lines, i: nat, j: nat)
    requires j < |curr|
    ensures TextAt(RowsOf(AddedFrom(prev, curr, i), prev, curr), AddedLine, j + 1)
         == if i <= j && Differs(curr, prev, j) then Some(curr[j]) else None
    decreases if i < |curr| then |curr| - i else 0
  {
    if i < |curr| {
      var rest := AddedFrom(prev, curr, i + 1);
      AddedTextAt(prev, curr, i + 1, j);
      if Differs(curr, prev, i) {
        assert ([Added(i)] + rest)[0] == Added(i) && ([Added(i)] + rest)[1..] == rest;
        TextAtCons(RowOf(Added(i), prev, curr), RowsOf(rest, prev, curr), AddedLine, j + 1);
      } else {
        assert [] + rest == rest;
      }
    }
  }

  lemma {:induction false} NoRemovedText(prev: Lines, curr: Lines, i: nat, number: nat)
    ensures TextAt(RowsOf(AddedFrom(prev, curr, i), prev, curr), RemovedLine, number) == None
    decreases if i < |curr| then |curr| - i else 0
  {
    if i < |curr| {
      var rest := AddedFrom(prev, curr, i + 1);
      NoRemovedText(prev, curr, i + 1, number);
      if Differs(curr, prev, i) {
        assert ([Added(i)] + rest)[0] == Added(i) && ([Added(i)] + rest)[1..] == rest;
        TextAtCons(RowOf(Added(i), prev, curr), RowsOf(rest, prev, curr), RemovedLine, number);
      } else {
        assert [] + rest == rest;
      }
    }
  }

  lemma {:induction false} RemovedTextAt(prev: Lines, curr: Lines, i: nat, j: nat)
    requires j < |prev|
    ensures TextAt(RowsOf(RemovedFrom(prev, curr, i), prev, curr), RemovedLine, j + 1)
         == if i <= j && Differs(prev, curr, j) then Some(prev[j]) else None
    decreases if i < |prev| then |prev| - i else 0
  {
    if i < |prev| {
      var rest := RemovedFrom(prev, curr, i + 1);
      RemovedTextAt(prev, curr, i + 1, j);
      if Differs(prev, curr, i) {
        assert ([Removed(i)] + rest)[0] == Removed(i) && ([Removed(i)] + rest)[1..] == rest;
        TextAtCons(RowOf(Removed(i), prev, curr), RowsOf(rest, prev, curr), RemovedLine, j + 1);
      } else {
        assert [] + rest == rest;
      }
    }
  }

  lemma {:induction false} NoAddedText(prev: Lines, curr: Lines, i: nat, number: nat)
    ensures TextAt(RowsOf(RemovedFrom(prev, curr, i), prev, curr), AddedLine, number) == None
    decreases if i < |prev| then |prev| - i else 0
  {
    if i < |prev| {
      var rest := RemovedFrom(prev, curr, i + 1);
      NoAddedText(prev, curr, i + 1, number);
      if Differs(prev, curr, i) {
        assert ([Removed(i)] + rest)[0] == Removed(i) && ([Removed(i)] + rest)[1..] == rest;
        TextAtCons(RowOf(Removed(i), prev, curr), RowsOf(rest, prev, curr), AddedLine, number);
      } else {
        assert [] + rest == rest;
      }
    }
  }

  lemma {:induction false} CountsDiffer(prev: Lines, curr: Lines, i: nat)
    ensures |AddedFrom(prev, curr, i)| - (if i < |curr| then |curr| - i else 0)
         == |RemovedFrom(prev, curr, i)| - (if i < |prev| then |prev| - i else 0)
    decreases |prev| + |curr| - i
  {
    if i < |prev| || i < |curr| {
      CountsDiffer(prev, curr, i + 1);
    }
  }

  lemma CurrentOverlaid(prev: Lines, curr: Lines, added: seq<Row>, removed: seq<Row>)
    requires added == RowsOf(AddedFrom(prev, curr, 0), prev, curr)
    requires removed == RowsOf(RemovedFrom(prev, curr, 0), prev, curr)
    ensures Overlaid(prev, added + removed, AddedLine, |curr|) == curr
  {
    forall j: nat | j < |curr| ensures Overlaid(prev, added + removed, AddedLine, |curr|)[j] == curr[j] {
      TextAtAppend(added, removed, AddedLine, j + 1);
      AddedTextAt(prev, curr, 0, j);
      NoAddedText(prev, curr, 0, j + 1);
    }
  }

  lemma PreviousOverlaid(prev: Lines, curr: Lines, added: seq<Row>, removed: seq<Row>)
    requires added == RowsOf(AddedFrom(prev, curr, 0), prev, curr)
    requires removed == RowsOf(RemovedFrom(prev, curr, 0), prev, curr)
    ensures Overlaid(curr, added + removed, RemovedLine, |prev|) == prev
  {
    forall j: nat | j < |prev| ensures Overlaid(curr, added + removed, RemovedLine, |prev|)[j] == prev[j] {
      TextAtAppend(added, removed, RemovedLine, j + 1);
      RemovedTextAt(prev, curr, 0, j);
      NoRemovedText(prev, curr, 0, j + 1);
    }
  }

  /** Either file follows from the other and the rows: its length from the counts, and each line from its
      row or, without one, from the line in the same place. */
  lemma LineDiffIsLossless(prev: Lines, curr: Lines)
    ensures |curr| == |prev| + |AddedFrom(prev, curr, 0)| - |RemovedFrom(prev, curr, 0)|
    ensures Overlaid(prev, LineDiffRows(prev, curr), AddedLine, |curr|) == curr
    ensures Overlaid(curr, LineDiffRows(prev, curr), RemovedLine, |prev|) == prev
  {
    CountsDiffer(prev, curr, 0);
    CurrentOverlaid(prev, curr, RowsOf(AddedFrom(prev, curr, 0), prev, curr),
                    RowsOf(RemovedFrom(prev, curr, 0), prev, curr));
    PreviousOverlaid(prev, curr, RowsOf(AddedFrom(prev, curr, 0), prev, curr),
                     RowsOf(RemovedFrom(prev, curr, 0), prev, curr));
  }
}
