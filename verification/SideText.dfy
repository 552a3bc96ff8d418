/** The two-column text as characters: which file its cells show. */
module SideText {
  import opened Options
  import opened EditScripts
  import opened LineWalk
  import opened DiffText
  import opened Rendering
  import opened SideBySide
  import opened RendererTheorems
  import opened RoundTrip
  import V = DiffViewer

  // ----- reading columns ------------------------------------------------------------------------------

  /** A row is two columns, the separator between them and a newline. */
  function RowSize(col: nat): nat {
    2 * col + 4
  }

  function Blocks(text: string, size: nat): seq<string>
    requires size > 0
  {
    if text == "" then [] else if |text| < size then [text] else [text[..size]] + Blocks(text[size..], size)
  }

  function CellOf(block: string, col: nat, left: bool): string {
    if |block| < RowSize(col) then "" else if left then block[..col] else block[col + 3..2 * col + 3]
  }

  function MarkOf(cell: string): char {
    if cell == "" then ' ' else cell[0]
  }

  /** A column shows a line of its file if it has the mark of the side, or if neither column has a mark. */
  predicate ShowsLine(block: string, col: nat, left: bool) {
    || MarkOf(CellOf(block, col, left)) == (if left then '-' else '+')
    || (MarkOf(CellOf(block, col, true)) == ' ' && MarkOf(CellOf(block, col, false)) == ' ')
  }

  /** The cells of one column that show a line. */
  function ShownCells(blocks: seq<string>, col: nat, left: bool): seq<string> {
    if blocks == [] then []
    else
      (if ShowsLine(blocks[0], col, left) then [CellOf(blocks[0], col, left)] else [])
      + ShownCells(blocks[1..], col, left)
  }

  /** After its mark the cell holds the line, and then blanks. */
  predicate Carries(cell: string, line: string) {
    && cell != "" && line <= cell[1..]
    && forall k :: |line| + 1 <= k < |cell| ==> cell[k] == ' '
  }

  predicate CarryAll(cells: seq<string>, lines: Lines) {
    |cells| == |lines| && forall k :: 0 <= k < |lines| ==> Carries(cells[k], lines[k])
  }

  predicate AllFit(lines: Lines, col: nat) {
    forall k :: 0 <= k < |lines| ==> |lines[k]| + 1 <= col
  }

  predicate IsRow(block: string, col: nat) {
    |block| == RowSize(col) && block[col..col + 3] == " | " && block[2 * col + 3] == '\n'
  }

  // ----- the cells of a row ---------------------------------------------------------------------------

  function Cell(text: string, col: nat): (cell: string)
    ensures |cell| == col
  {
    PadRight(Truncate(text, col), col)
  }

  lemma ColumnsCells(l: string, r: string, col: nat)
    ensures
      var block := Columns(l, r, col);
      IsRow(block, col) && CellOf(block, col, true) == Cell(l, col) && CellOf(block, col, false) == Cell(r, col)
  {
    var a, b := Cell(l, col), Cell(r, col);
    var block := Columns(l, r, col);
    assert block == a + " | " + b + "\n";
    assert block[..col] == a && block[col..col + 3] == " | " && block[col + 3..2 * col + 3] == b;
  }

  lemma MarkedCell(mark: char, line: string, col: nat)
    requires col >= 1
    ensures
      var cell := Cell([mark] + line, col);
      MarkOf(cell) == mark && (Carries(cell, line) <==> |line| + 1 <= col)
  {
    var cell := Cell([mark] + line, col);
    if |line| + 1 <= col {
      assert cell == [mark] + line + Spaces(col - |line| - 1);
      assert cell[1..][..|line|] == line;
    }
  }

  lemma BlankCell(col: nat)
    ensures MarkOf(Cell("", col)) == ' '
  {
  }

  /** The line of its file that a row shows in one column. */
  function LineShown(row: SideRow, left: bool): Option<nat> {
    match row
    case Equal(p, c) => Some(if left then p else c)
    case Modified(p, c) => Some(if left then p else c)
    case LeftOnly(p) => if left then Some(p) else None
    case RightOnly(c) => if left then None else Some(c)
  }

  lemma RowCells(row: SideRow, prev: Lines, curr: Lines, col: nat, left: bool)
    requires col >= 1
    ensures
      var block := RowText(row, prev, curr, col);
      var n := LineShown(row, left);
      && IsRow(block, col) && (ShowsLine(block, col, left) <==> n.Some?)
      && (n.Some? ==>
            var line := LineAt(if left then prev else curr, n.value);
            Carries(CellOf(block, col, left), line) <==> |line| + 1 <= col)
  {
    BlankCell(col);
    match row {
      case Equal(p, c) =>
        ColumnsCells(" " + LineAt(prev, p), " " + LineAt(curr, c), col);
        MarkedCell(' ', LineAt(prev, p), col);
        MarkedCell(' ', LineAt(curr, c), col);
      case Modified(p, c) =>
        ColumnsCells("-" + LineAt(prev, p), "+" + LineAt(curr, c), col);
        MarkedCell('-', LineAt(prev, p), col);
        MarkedCell('+', LineAt(curr, c), col);
      case LeftOnly(p) =>
        ColumnsCells("-" + LineAt(prev, p), "", col);
        MarkedCell('-', LineAt(prev, p), col);
      case RightOnly(c) =>
        ColumnsCells("", "+" + LineAt(curr, c), col);
        MarkedCell('+', LineAt(curr, c), col);
    }
  }

  // ----- the text of rows -----------------------------------------------------------------------------

  function RowBlocks(rows: seq<SideRow>, prev: Lines, curr: Lines, col: nat): seq<string> {
    if rows == [] then [] else [RowText(rows[0], prev, curr, col)] + RowBlocks(rows[1..], prev, curr, col)
  }

  lemma RowIsBlock(row: SideRow, prev: Lines, curr: Lines, col: nat)
    ensures IsRow(RowText(row, prev, curr, col), col)
  {
    match row {
      case Equal(p, c) => ColumnsCells(" " + LineAt(prev, p), " " + LineAt(curr, c), col);
      case Modified(p, c) => ColumnsCells("-" + LineAt(prev, p), "+" + LineAt(curr, c), col);
      case LeftOnly(p) => ColumnsCells("-" + LineAt(prev, p), "", col);
      case RightOnly(c) => ColumnsCells("", "+" + LineAt(curr, c), col);
    }
  }

  lemma {:induction false} BlocksOfRows(rows: seq<SideRow>, prev: Lines, curr: Lines, col: nat)
    ensures Blocks(RowsText(rows, prev, curr, col), RowSize(col)) == RowBlocks(rows, prev, curr, col)
    ensures forall k :: 0 <= k < |RowBlocks(rows, prev, curr, col)| ==> IsRow(RowBlocks(rows, prev, curr, col)[k], col)
  {
    if rows != [] {
      var head, rest := RowText(rows[0], prev, curr, col), RowsText(rows[1..], prev, curr, col);
      BlocksOfRows(rows[1..], prev, curr, col);
      RowIsBlock(rows[0], prev, curr, col);
      assert (head + rest)[..RowSize(col)] == head && (head + rest)[RowSize(col)..] == rest;
    }
  }

  function LinesShown(rows: seq<SideRow>, left: bool): seq<nat> {
    if rows == [] then []
    else
      var n := LineShown(rows[0], left);
      (if n.Some? then [n.value] else []) + LinesShown(rows[1..], left)
  }

  lemma {:induction false} ScriptNumbers(rows: seq<SideRow>)
    ensures PrevNumbers(ScriptOf(rows)) == LinesShown(rows, true)
    ensures CurrNumbers(ScriptOf(rows)) == LinesShown(rows, false)
  {
    if rows != [] {
      ScriptNumbers(rows[1..]);
      PrevNumbersAppend(RowScript(rows[0]), ScriptOf(rows[1..]));
      CurrNumbersAppend(RowScript(rows[0]), ScriptOf(rows[1..]));
      RowNumbers(rows[0]);
    }
  }

  lemma RowNumbers(row: SideRow)
    ensures
      var l, r := LineShown(row, true), LineShown(row, false);
      && PrevNumbers(RowScript(row)) == (if l.Some? then [l.value] else [])
      && CurrNumbers(RowScript(row)) == (if r.Some? then [r.value] else [])
  {
    match row {
      case Modified(p, c) =>
        assert [Removed(p), Added(c)] == [Removed(p)] + [Added(c)];
        PrevNumbersAppend([Removed(p)], [Added(c)]);
        CurrNumbersAppend([Removed(p)], [Added(c)]);
        OneEntry(Removed(p));
        OneEntry(Added(c));
      case _ => OneEntry(RowScript(row)[0]);
    }
  }

  lemma OneEntry(e: Entry)
    ensures PrevNumbers([e]) == (if e.Added? then [] else [e.prevLn])
    ensures CurrNumbers([e]) == (if e.Removed? then [] else [e.currLn])
  {
    assert [e][1..] == [];
  }

  /** Each cell shown is for one line, which it carries if and only if the line fits. */
  predicate CarriedIfFit(cells: seq<string>, numbers: seq<nat>, lines: Lines, col: nat) {
    && |cells| == |numbers|
    && forall k :: 0 <= k < |numbers| ==>
         (Carries(cells[k], LineAt(lines, numbers[k])) <==> |LineAt(lines, numbers[k])| + 1 <= col)
  }

  lemma {:induction false} CellsOfRows(rows: seq<SideRow>, prev: Lines, curr: Lines, col: nat, left: bool)
    requires col >= 1
    ensures CarriedIfFit(ShownCells(RowBlocks(rows, prev, curr, col), col, left), LinesShown(rows, left),
                         if left then prev else curr, col)
  {
    if rows != [] {
      var block, blocks := RowText(rows[0], prev, curr, col), RowBlocks(rows[1..], prev, curr, col);
      CellsOfRows(rows[1..], prev, curr, col, left);
      RowCells(rows[0], prev, curr, col, left);
      ShownCons(block, blocks, col, left);
      CarriedCons(LineShown(rows[0], left), CellOf(block, col, left), ShownCells(blocks, col, left),
                  LinesShown(rows[1..], left), if left then prev else curr, col);
    }
  }

  lemma ShownCons(block: string, blocks: seq<string>, col: nat, left: bool)
    ensures ShownCells([block] + blocks, col, left)
         == (if ShowsLine(block, col, left) then [CellOf(block, col, left)] else []) + ShownCells(blocks, col, left)
  {
    assert ([block] + blocks)[0] == block && ([block] + blocks)[1..] == blocks;
  }

  lemma CarriedCons(n: Option<nat>, cell: string, cells: seq<string>, numbers: seq<nat>, lines: Lines, col: nat)
    requires CarriedIfFit(cells, numbers, lines, col)
    requires n.Some? ==> (Carries(cell, LineAt(lines, n.value)) <==> |LineAt(lines, n.value)| + 1 <= col)
    ensures CarriedIfFit((if n.Some? then [cell] else []) + cells, (if n.Some? then [n.value] else []) + numbers,
                         lines, col)
  {
  }

  lemma CarriedIff(cells: seq<string>, numbers: seq<nat>, lines: Lines, col: nat)
    requires CarriedIfFit(cells, numbers, lines, col) && |numbers| == |lines| && CountsFrom(numbers, 0)
    ensures CarryAll(cells, lines) <==> AllFit(lines, col)
  {
    forall k | 0 <= k < |lines| ensures numbers[k] == k && LineAt(lines, numbers[k]) == lines[k] {
    }
    if CarryAll(cells, lines) {
      forall k | 0 <= k < |lines| ensures |lines[k]| + 1 <= col {
        assert Carries(cells[k], LineAt(lines, numbers[k]));
      }
    }
  }

  /** Without room for a mark nothing is shown. */
  lemma {:induction false} NoRoom(blocks: seq<string>, left: bool)
    ensures |ShownCells(blocks, 0, left)| == |blocks|
    ensures forall k :: 0 <= k < |blocks| ==> ShownCells(blocks, 0, left)[k] == ""
  {
    if blocks != [] {
      NoRoom(blocks[1..], left);
    }
  }

  // ----- the theorem ----------------------------------------------------------------------------------

  lemma RowsHoldBothIff(rows: seq<SideRow>, prev: Lines, curr: Lines, col: nat, blocks: seq<string>)
    requires IsEditScript(ScriptOf(rows), prev, curr) && rows != [] && blocks == RowBlocks(rows, prev, curr, col)
    ensures CarryAll(ShownCells(blocks, col, true), prev) && CarryAll(ShownCells(blocks, col, false), curr)
            <==> AllFit(prev, col) && AllFit(curr, col)
  {
    ScriptNumbers(rows);
    if col == 0 {
      NoRoom(blocks, true);
      NoRoom(blocks, false);
      SomeLine(rows);
      NothingCarried(ShownCells(blocks, 0, true), prev);
      NothingCarried(ShownCells(blocks, 0, false), curr);
    } else {
      CellsOfRows(rows, prev, curr, col, true);
      CellsOfRows(rows, prev, curr, col, false);
      CarriedIff(ShownCells(blocks, col, true), LinesShown(rows, true), prev, col);
      CarriedIff(ShownCells(blocks, col, false), LinesShown(rows, false), curr, col);
    }
  }

  lemma NothingCarried(cells: seq<string>, lines: Lines)
    requires forall k :: 0 <= k < |cells| ==> cells[k] == ""
    ensures cells != [] ==> !CarryAll(cells, lines)
    ensures lines != [] ==> !AllFit(lines, 0)
  {
    if lines != [] {
      assert |lines[0]| + 1 > 0;
      if |cells| == |lines| {
        assert !Carries(cells[0], lines[0]);
      }
    }
  }

  lemma SomeLine(rows: seq<SideRow>)
    requires rows != []
    ensures LinesShown(rows, true) != [] || LinesShown(rows, false) != []
  {
  }

  /** For every faithful change list and every width that does not underflow, the two-column text after its
      header is rows of two cells, a separator and a newline; read as characters, the left cells that show a
      line hold the previous file in order and the right ones the current file, if and only if every line
      of both files fits into its column behind the mark. */
  lemma SideTextHoldsBothIff(report: Report, prev: Lines, curr: Lines, path: string, width: nat)
    requires report.status == "changed" && width >= 3
    requires AllChanges(report.chunks) != [] && Faithful(AllChanges(report.chunks), prev, curr)
    ensures SideOutput(report, prev, curr, path, width).Changed?
    ensures SideHeader(path, width) <= SideOutput(report, prev, curr, path, width).render
    ensures
      var col := (width - 3) / 2;
      var render := SideOutput(report, prev, curr, path, width).render;
      var blocks := Blocks(render[|SideHeader(path, width)|..], RowSize(col));
      && (forall k :: 0 <= k < |blocks| ==> IsRow(blocks[k], col))
      && (CarryAll(ShownCells(blocks, col, true), prev) && CarryAll(ShownCells(blocks, col, false), curr)
          <==> AllFit(prev, col) && AllFit(curr, col))
  {
    var changes := AllChanges(report.chunks);
    var rows := SideWalk(changes, 0, 0, |prev|, |curr|);
    var col := (width - 3) / 2;
    FaithfulNamesExisting(changes, prev, curr);
    AnswersByStatus(report, prev, curr, path, 0, width);
    SideRowsAreEditScript(changes, prev, curr);
    ScriptNumbers(rows);
    BlocksOfRows(rows, prev, curr, col);
    AfterHeader(SideHeader(path, width), RowsText(rows, prev, curr, col));
    RowsHoldBothIff(rows, prev, curr, col, RowBlocks(rows, prev, curr, col));
  }

  lemma AfterHeader(head: string, body: string)
    ensures head <= head + body && (head + body)[|head|..] == body
  {
  }

  // ----- without its prefix -----------------------------------------------------------------------------

  lemma {:induction false} TrimEndKeeps(s: string, k: nat)
    requires 0 < k <= |s| && !IsWhitespace(s[k - 1])
    ensures s[..k] <= TrimEnd(s)
    decreases |s|
  {
    if IsWhitespace(s[|s| - 1]) {
      TrimEndKeeps(s[..|s| - 1], k);
      assert s[..|s| - 1][..k] == s[..k];
    }
  }

  lemma {:induction false} ContainsAt(s: string, t: string, i: nat)
    requires i <= |s| && t <= s[i..]
    ensures V.Contains(s, t)
  {
    if i > 0 {
      assert s[1..][i - 1..] == s[i..];
      ContainsAt(s[1..], t, i - 1);
    } else {
      assert s[0..] == s;
    }
  }

  function Labels(col: nat): string {
    PadRight("previous", col) + " | " + PadRight("current", col)
  }

  lemma EndsAt(start: string, word: string, rest: string)
    requires word != "" && !IsWhitespace(word[|word| - 1])
    ensures
      var s := start + word + rest;
      start + word <= TrimEnd(s)
  {
    var s := start + word + rest;
    TrimEndKeeps(s, |start + word|);
    assert s[..|start + word|] == start + word;
  }

  lemma WordsFound(first: string, gap: string, second: string, rest: string)
    requires first != "" && second != "" && !IsWhitespace(first[0]) && !IsWhitespace(second[|second| - 1])
    ensures
      var line := first + gap + " | " + second + rest;
      first <= Trim(line) && '|' in Trim(line) && V.Contains(Trim(line), second)
  {
    var start := first + gap + " | ";
    var line := start + second + rest;
    assert line[0] == first[0];
    EndsAt(start, second, rest);
    var trimmed := Trim(line);
    WordsIn(first, gap, second, trimmed);
  }

  lemma WordsIn(first: string, gap: string, second: string, text: string)
    requires first + gap + " | " + second <= text
    ensures first <= text && '|' in text && V.Contains(text, second)
  {
    var start := first + gap + " | ";
    assert text[..|start + second|] == start + second;
    assert text[|start| - 2] == '|';
    assert text[|start|..][..|second|] == second;
    ContainsAt(text, second, |start|);
    assert text[..|first|] == first;
  }

  lemma Padded(word: string, col: nat) returns (gap: string)
    ensures PadRight(word, col) == word + gap && '\n' !in gap
    ensures gap != "" ==> gap[|gap| - 1] == ' '
  {
    gap := if |word| < col then Spaces(col - |word|) else "";
  }

  lemma LabelsHaveNoNewline(x: string, y: string)
    requires '\n' !in x && '\n' !in y
    ensures '\n' !in "previous" + x + " | " + "current" + y
  {
    assert '\n' !in "previous" && '\n' !in " | " && '\n' !in "current";
    assert '\n' !in "previous" + x;
    assert '\n' !in "previous" + x + " | ";
    assert '\n' !in "previous" + x + " | " + "current";
  }

  lemma LabelsLookSideBySide(col: nat)
    ensures '\n' !in Labels(col) && V.LooksSideBySide(StripCr(Labels(col)))
  {
    var x := Padded("previous", col);
    var y := Padded("current", col);
    var line := "previous" + x + " | " + "current" + y;
    assert Labels(col) == line;
    assert line[|line| - 1] == (if y == "" then 't' else ' ');
    LabelsHaveNoNewline(x, y);
    WordsFound("previous", x, "current", y);
  }

  lemma LinesCons(head: string, rest: string)
    requires '\n' !in head
    ensures LinesOf(head + "\n" + rest) == [StripCr(head)] + LinesOf(rest)
  {
    var text := head + "\n" + rest;
    FirstNewline(head, rest);
    assert text[..|head|] == head && text[|head| + 1..] == rest;
  }

  lemma {:induction false} LineAfter(lines: Lines, line: string, after: string)
    requires NoNewlines(lines) && '\n' !in line
    ensures StripCr(line) in LinesOf(Unlines(lines) + (line + "\n" + after))
  {
    var text := line + "\n" + after;
    if lines == [] {
      assert Unlines(lines) + text == text;
      LinesCons(line, after);
    } else {
      LineAfter(lines[1..], line, after);
      LinesCons(lines[0], Unlines(lines[1..]) + text);
      assert Unlines(lines) + text == lines[0] + "\n" + (Unlines(lines[1..]) + text);
    }
  }

  lemma LabelsRead(path: string, col: nat, after: string)
    ensures
      var lines := LinesOf(PathLines(path) + (Labels(col) + "\n" + after));
      exists k :: 0 <= k < |lines| && V.LooksSideBySide(lines[k])
  {
    var lines := LinesOf(PathLines(path) + (Labels(col) + "\n" + after));
    PathLinesEnd(path);
    var head := CutLines(PathLines(path));
    LabelsLookSideBySide(col);
    LineAfter(head, Labels(col), after);
    var k :| 0 <= k < |lines| && lines[k] == StripCr(Labels(col));
    assert V.LooksSideBySide(lines[k]);
  }

  lemma IsNoPrefix(format: V.DiffFormat, text: string)
    requires text != "" && text[0] == '-'
    ensures !(V.PrefixOf(format) <= text)
  {
    var prefix := V.PrefixOf(format);
    assert |prefix| > 9 && prefix[0] == '@' by {
      match format {
        case Unified =>
        case Context =>
        case FullFile =>
        case SideBySide =>
        case Raw =>
      }
    }
  }

  lemma NoPrefixRead(text: string)
    requires text != "" && text[0] == '-'
    requires exists k :: 0 <= k < |LinesOf(text)| && V.LooksSideBySide(LinesOf(text)[k])
    ensures V.ParseFormatPrefix(text) == (V.SideBySide, text)
  {
    IsNoPrefix(V.Unified, text);
    IsNoPrefix(V.Context, text);
    IsNoPrefix(V.FullFile, text);
    IsNoPrefix(V.SideBySide, text);
    IsNoPrefix(V.Raw, text);
  }

  lemma HeaderParts(path: string, width: nat, rows: string)
    requires width >= 3
    ensures
      var col := (width - 3) / 2;
      SideHeader(path, width) + rows
      == V.PrefixOf(V.SideBySide) + (PathLines(path) + (Labels(col) + "\n" + (Dashes(width) + "\n" + rows)))
  {
    var col := (width - 3) / 2;
    FiveParts(V.PrefixOf(V.SideBySide), PathLines(path), Labels(col) + "\n", Dashes(width) + "\n", rows);
  }

  lemma FiveParts(a: string, b: string, c: string, d: string, e: string)
    ensures a + b + c + d + e == a + (b + (c + (d + e)))
  {
  }

  /** The dashboard takes a two-column rendering for one with its prefix, and by its labels alone without it,
      whatever the path. */
  lemma KnownByPrefixOrLabels(path: string, width: nat, rows: string)
    requires width >= 3
    ensures
      var prefix, render := V.PrefixOf(V.SideBySide), SideHeader(path, width) + rows;
      && prefix <= render
      && V.ParseFormatPrefix(render) == (V.SideBySide, render[|prefix|..])
      && V.ParseFormatPrefix(render[|prefix|..]) == (V.SideBySide, render[|prefix|..])
  {
    var col, prefix := (width - 3) / 2, V.PrefixOf(V.SideBySide);
    var text := PathLines(path) + (Labels(col) + "\n" + (Dashes(width) + "\n" + rows));
    HeaderParts(path, width, rows);
    AfterHeader(prefix, text);
    V.PrefixRead(V.SideBySide, text);
    LabelsRead(path, col, Dashes(width) + "\n" + rows);
    NoPrefixRead(text);
  }
}
