/** From files to the dashboard and back: printing a diff and reading it. */
module RoundTrip {
  import opened Options
  import opened EditScripts
  import opened LineWalk
  import opened HunkRanges
  import opened DiffText
  import opened RowSides
  import opened Patches
  import opened ContextHunks
  import opened Rendering
  import opened ContextRendering
  import opened DiffTheorems
  import V = DiffViewer
  import T = ViewerTheorems

  // ----- printed lines ------------------------------------------------------------------------------

  /** A line of a rendering: a header or hunk header, or a body row. */
  datatype Item = Meta(kind: LineKind, text: string) | Body(row: Row)

  function ItemLine(item: Item): string {
    match item
    case Meta(_, text) => text
    case Body(row) => PrintRow(row)
  }

  function ItemRaw(item: Item): RawLine {
    match item
    case Meta(kind, text) => RawLine(kind, None, text)
    case Body(row) => AsRaw(row)
  }

  function ItemLines(items: seq<Item>): seq<string> {
    if items == [] then [] else [ItemLine(items[0])] + ItemLines(items[1..])
  }

  function ItemRaws(items: seq<Item>): seq<RawLine> {
    if items == [] then [] else [ItemRaw(items[0])] + ItemRaws(items[1..])
  }

  /** An item that stays one line of text, and whose header, if it is one, is read as that header. */
  predicate Printable(item: Item) {
    && '\n' !in ItemLine(item)
    && match item
       case Meta(kind, text) => ParseLine(StripCr(text)) == RawLine(kind, None, text)
       case Body(row) => IsBodyKind(row.kind)
  }

  predicate AllPrintable(items: seq<Item>) {
    items == [] || (Printable(items[0]) && AllPrintable(items[1..]))
  }

  predicate AllRecoverable(items: seq<Item>) {
    items == [] || ((items[0].Body? ==> Recoverable(items[0].row)) && AllRecoverable(items[1..]))
  }

  lemma {:induction false} PrintableLines(items: seq<Item>)
    requires AllPrintable(items)
    ensures NoNewlines(ItemLines(items))
  {
    if items != [] {
      PrintableLines(items[1..]);
      var lines := ItemLines(items);
      assert lines[0] == ItemLine(items[0]) && lines[1..] == ItemLines(items[1..]);
      assert forall i :: 0 < i < |lines| ==> lines[i] == lines[1..][i - 1];
    }
  }

  lemma {:induction false} ReadBack(items: seq<Item>)
    requires AllPrintable(items)
    ensures V.ParseAll(StripAll(ItemLines(items))) == ItemRaws(items) <==> AllRecoverable(items)
  {
    if items != [] {
      ReadBack(items[1..]);
      var line := ItemLine(items[0]);
      StripCons(line, ItemLines(items[1..]));
      ParseCons(StripCr(line), StripAll(ItemLines(items[1..])));
      ConsEqual(ParseLine(StripCr(line)), V.ParseAll(StripAll(ItemLines(items[1..]))), ItemRaw(items[0]),
                ItemRaws(items[1..]));
      if items[0].Body? {
        RowRoundTrip(items[0].row);
      }
    }
  }

  lemma StripCons(line: string, lines: seq<string>)
    ensures StripAll([line] + lines) == [StripCr(line)] + StripAll(lines)
  {
    assert ([line] + lines)[0] == line && ([line] + lines)[1..] == lines;
  }

  lemma ParseCons(line: string, lines: seq<string>)
    ensures V.ParseAll([line] + lines) == [ParseLine(line)] + V.ParseAll(lines)
  {
    assert ([line] + lines)[0] == line && ([line] + lines)[1..] == lines;
  }

  lemma ConsEqual(a: RawLine, s: seq<RawLine>, b: RawLine, t: seq<RawLine>)
    ensures [a] + s == [b] + t <==> a == b && s == t
  {
    if [a] + s == [b] + t {
      assert ([a] + s)[0] == a && ([b] + t)[0] == b;
      assert ([a] + s)[1..] == s && ([b] + t)[1..] == t;
    }
  }

  /** Printing items and reading the text recovers every item exactly when every row is recoverable. */
  lemma ItemsRoundTrip(items: seq<Item>)
    requires AllPrintable(items)
    ensures V.ParseAll(LinesOf(Unlines(ItemLines(items)))) == ItemRaws(items) <==> AllRecoverable(items)
  {
    PrintableLines(items);
    LinesOfUnlines(ItemLines(items));
    ReadBack(items);
  }

  // ----- headers are read as headers ------------------------------------------------------------------

  /** A path that fits on one header line. */
  predicate CleanPath(path: string) {
    '\n' !in path && !(path != "" && path[|path| - 1] == '\r')
  }

  lemma TrimStartKeeps(s: string)
    requires s != "" && !IsWhitespace(s[0])
    ensures TrimStart(s) == s
  {
  }

  lemma {:induction false} TrimEndKeepsThree(s: string, c: char)
    requires |s| >= 3 && s[0] == s[1] == s[2] == c && !IsWhitespace(c)
    ensures |TrimEnd(s)| >= 3 && TrimEnd(s)[0] == TrimEnd(s)[1] == c
    decreases |s|
  {
    if IsWhitespace(s[|s| - 1]) {
      TrimEndKeepsThree(s[..|s| - 1], c);
    }
  }

  /** Three equal marks are not a number, with or without the sign that `parse` allows. */
  lemma MarksAreNoNumber(s: string, c: char)
    requires |s| >= 3 && s[0] == s[1] == s[2] == c && (c == '-' || c == '+' || c == '@')
    ensures ParseU32(Trim(s)) == None
  {
    TrimStartKeeps(s);
    TrimEndKeepsThree(s, c);
    var t := Trim(s);
    assert !AllDigits(t) && (c == '+' ==> !AllDigits(t[1..])) by {
      assert !IsDigit(t[0]);
      assert !IsDigit(t[1..][0]);
    }
  }

  lemma FileHeaderRead(mark: char, path: string)
    requires mark == '-' || mark == '+'
    ensures
      var line := [mark, mark, mark, ' '] + path;
      ParseLine(line) == RawLine(Header, None, line)
  {
    var marks := [mark, mark, mark, ' '];
    var line := marks + path;
    assert marks == (if mark == '-' then "--- " else "+++ ");
    assert marks <= line;
    var sep := FindSeparator(line, 0);
    if sep.Some? {
      assert SeparatorAt(line, sep.value);
      assert line[0] == line[1] == line[2] == mark;
      assert sep.value >= 3;
      MarksAreNoNumber(line[..sep.value], mark);
    }
  }

  predicate NoBars(s: string) {
    '|' !in s
  }

  lemma DecimalPlain(n: nat)
    ensures NoBars(Decimal(n)) && '\n' !in Decimal(n)
  {
    var d := Decimal(n);
    forall c | c in d ensures IsDigit(c) {
      var i :| 0 <= i < |d| && d[i] == c;
    }
  }

  lemma HunkHeaderPlain(h: Hunk)
    ensures NoBars(HeaderLine(h)) && '\n' !in HeaderLine(h)
  {
    DecimalPlain(h.prevStart);
    DecimalPlain(h.prevCount);
    DecimalPlain(h.currStart);
    DecimalPlain(h.currCount);
  }

  lemma HunkHeaderEnds(h: Hunk)
    ensures
      var line := HeaderLine(h);
      |line| >= 3 && line[0] == '@' && line[1] == '@' && line[|line| - 1] == '@'
  {
  }

  lemma HunkHeaderRead(h: Hunk)
    ensures Printable(Meta(HunkMeta, HeaderLine(h)))
  {
    var line := HeaderLine(h);
    HunkHeaderPlain(h);
    HunkHeaderEnds(h);
    assert StripCr(line) == line;
    assert forall i :: 0 <= i < |line| ==> line[i] in line;
    assert FindSeparator(line, 0) == None;
    assert "@@" <= line;
  }

  // ----- renderings as items ----------------------------------------------------------------------

  function PathItems(path: string): seq<Item> {
    [Meta(Header, "--- " + path), Meta(Header, "+++ " + path)]
  }

  function BodyItems(es: seq<Entry>, prev: Lines, curr: Lines): seq<Item> {
    if es == [] then [] else [Body(RowOf(es[0], prev, curr))] + BodyItems(es[1..], prev, curr)
  }

  function HunkItems(es: seq<Entry>, ranges: seq<Range>, prev: Lines, curr: Lines): seq<Item> {
    if ranges == [] then []
    else
      var hunk := Slice(es, ranges[0]);
      ([Meta(HunkMeta, HeaderLine(HunkOf(hunk, prev, curr)))] + BodyItems(hunk, prev, curr))
      + HunkItems(es, ranges[1..], prev, curr)
  }

  lemma {:induction false} UnlinesAppend(a: seq<string>, b: seq<string>)
    ensures Unlines(a + b) == Unlines(a) + Unlines(b)
  {
    if a == [] {
      assert a + b == b;
    } else {
      assert (a + b)[0] == a[0] && (a + b)[1..] == a[1..] + b;
      UnlinesAppend(a[1..], b);
    }
  }

  lemma {:induction false} ItemLinesAppend(a: seq<Item>, b: seq<Item>)
    ensures ItemLines(a + b) == ItemLines(a) + ItemLines(b)
    ensures AllPrintable(a + b) <==> AllPrintable(a) && AllPrintable(b)
    ensures AllRecoverable(a + b) <==> AllRecoverable(a) && AllRecoverable(b)
  {
    if a == [] {
      assert a + b == b;
    } else {
      assert (a + b)[0] == a[0] && (a + b)[1..] == a[1..] + b;
      ItemLinesAppend(a[1..], b);
    }
  }

  /** The text of items. */
  function ItemsText(items: seq<Item>): string {
    Unlines(ItemLines(items))
  }

  lemma ItemsTextAppend(a: seq<Item>, b: seq<Item>)
    ensures ItemsText(a + b) == ItemsText(a) + ItemsText(b)
  {
    ItemLinesAppend(a, b);
    UnlinesAppend(ItemLines(a), ItemLines(b));
  }

  lemma ItemsTextOne(item: Item)
    ensures ItemsText([item]) == ItemLine(item) + "\n"
  {
    assert [item][1..] == [];
    var line := ItemLine(item);
    assert ItemLines([item]) == [line];
    assert [line][1..] == [] && Unlines([]) == "";
    assert line + "\n" + "" == line + "\n";
  }

  lemma {:induction false} BodyItemsText(es: seq<Entry>, prev: Lines, curr: Lines)
    ensures ItemsText(BodyItems(es, prev, curr)) == EntriesText(es, prev, curr)
  {
    if es != [] {
      BodyItemsText(es[1..], prev, curr);
      ItemsTextOne(Body(RowOf(es[0], prev, curr)));
      ItemsTextAppend([Body(RowOf(es[0], prev, curr))], BodyItems(es[1..], prev, curr));
    }
  }

  lemma HunkItemText(hunk: seq<Entry>, prev: Lines, curr: Lines)
    ensures ItemsText([Meta(HunkMeta, HeaderLine(HunkOf(hunk, prev, curr)))] + BodyItems(hunk, prev, curr))
         == HunkText(hunk, prev, curr)
  {
    var head := Meta(HunkMeta, HeaderLine(HunkOf(hunk, prev, curr)));
    ItemsTextOne(head);
    ItemsTextAppend([head], BodyItems(hunk, prev, curr));
    BodyItemsText(hunk, prev, curr);
  }

  lemma {:induction false} HunkItemsText(es: seq<Entry>, ranges: seq<Range>, prev: Lines, curr: Lines)
    ensures ItemsText(HunkItems(es, ranges, prev, curr)) == HunksText(es, ranges, prev, curr)
  {
    if ranges != [] {
      var hunk := Slice(es, ranges[0]);
      HunkItemText(hunk, prev, curr);
      HunkItemsText(es, ranges[1..], prev, curr);
      ItemsTextAppend([Meta(HunkMeta, HeaderLine(HunkOf(hunk, prev, curr)))] + BodyItems(hunk, prev, curr),
                      HunkItems(es, ranges[1..], prev, curr));
    }
  }

  lemma PathItemsText(path: string)
    ensures ItemsText(PathItems(path)) == PathLines(path)
  {
    var a, b := Meta(Header, "--- " + path), Meta(Header, "+++ " + path);
    assert PathItems(path) == [a] + [b];
    ItemsTextAppend([a], [b]);
    ItemsTextOne(a);
    ItemsTextOne(b);
  }

  // ----- renderings are printable -----------------------------------------------------------------

  lemma PathItemsPrintable(path: string)
    requires CleanPath(path)
    ensures AllPrintable(PathItems(path)) && AllRecoverable(PathItems(path))
  {
    FileHeaderRead('-', path);
    FileHeaderRead('+', path);
    assert ['-', '-', '-', ' '] == "--- " && ['+', '+', '+', ' '] == "+++ ";
    var items := PathItems(path);
    assert StripCr("--- " + path) == "--- " + path && StripCr("+++ " + path) == "+++ " + path;
    assert items[1..] == [items[1]] && [items[1]][1..] == [];
    assert Printable(items[0]) && Printable(items[1]);
  }

  lemma RowPrintable(e: Entry, prev: Lines, curr: Lines)
    requires NoNewlines(prev) && NoNewlines(curr)
    ensures Printable(Body(RowOf(e, prev, curr)))
  {
    var row := RowOf(e, prev, curr);
    var d := Decimal(row.number);
    DecimalPlain(row.number);
    assert '\n' !in row.content;
    assert '\n' !in Spaces(if |d| < 4 then 4 - |d| else 0);
    assert '\n' !in PadNumber(row.number);
  }

  lemma {:induction false} BodyItemsPrintable(es: seq<Entry>, prev: Lines, curr: Lines)
    requires NoNewlines(prev) && NoNewlines(curr)
    ensures AllPrintable(BodyItems(es, prev, curr))
  {
    if es != [] {
      BodyItemsPrintable(es[1..], prev, curr);
      RowPrintable(es[0], prev, curr);
      var items := BodyItems(es, prev, curr);
      assert items[0] == Body(RowOf(es[0], prev, curr)) && items[1..] == BodyItems(es[1..], prev, curr);
    }
  }

  lemma OneItem(item: Item)
    ensures AllPrintable([item]) <==> Printable(item)
    ensures AllRecoverable([item]) <==> (item.Body? ==> Recoverable(item.row))
  {
    assert [item][1..] == [];
  }

  lemma {:induction false} HunkItemsPrintable(es: seq<Entry>, ranges: seq<Range>, prev: Lines, curr: Lines)
    requires NoNewlines(prev) && NoNewlines(curr)
    ensures AllPrintable(HunkItems(es, ranges, prev, curr))
  {
    if ranges != [] {
      var hunk := Slice(es, ranges[0]);
      var head := Meta(HunkMeta, HeaderLine(HunkOf(hunk, prev, curr)));
      HunkItemsPrintable(es, ranges[1..], prev, curr);
      BodyItemsPrintable(hunk, prev, curr);
      HunkHeaderRead(HunkOf(hunk, prev, curr));
      OneItem(head);
      ItemLinesAppend([head], BodyItems(hunk, prev, curr));
      ItemLinesAppend([head] + BodyItems(hunk, prev, curr), HunkItems(es, ranges[1..], prev, curr));
    }
  }

  // ----- a path that does not fit on its line is noticed ----------------------------------------------

  function Newlines(text: string): nat {
    if text == "" then 0 else Newlines(text[..|text| - 1]) + (if text[|text| - 1] == '\n' then 1 else 0)
  }

  lemma {:induction false} NewlinesAppend(a: string, b: string)
    ensures Newlines(a + b) == Newlines(a) + Newlines(b)
    decreases |b|
  {
    if b == "" {
      assert a + b == a;
    } else {
      var n := |b| - 1;
      assert (a + b)[..|a| + n] == a + b[..n] && (a + b)[|a| + n] == b[n];
      NewlinesAppend(a, b[..n]);
    }
  }

  lemma {:induction false} NoNewlineIn(text: string)
    ensures Newlines(text) > 0 <==> '\n' in text
  {
    if text != "" {
      var n := |text| - 1;
      NoNewlineIn(text[..n]);
      assert text == text[..n] + [text[n]];
    }
  }

  lemma {:induction false} AtLeastItsNewlines(text: string)
    ensures |LinesOf(text)| >= Newlines(text)
    decreases |text|
  {
    if text != "" {
      var i := NewlineFrom(text, 0);
      if i.Some? {
        var head, rest := text[..i.value], text[i.value + 1..];
        AtLeastItsNewlines(rest);
        assert text == head + ("\n" + rest);
        assert head == text[0..i.value];
        NoNewlineIn(head);
        NewlinesAppend(head, "\n" + rest);
        NewlinesAppend("\n", rest);
        assert "\n"[..0] == "";
      } else {
        assert text[0..] == text;
        NoNewlineIn(text);
      }
    }
  }

  lemma {:induction false} UnlinesNewlines(lines: seq<string>)
    ensures Newlines(Unlines(lines)) >= |lines|
    ensures lines != [] && '\n' in lines[0] ==> Newlines(Unlines(lines)) > |lines|
  {
    if lines != [] {
      var rest := Unlines(lines[1..]);
      UnlinesNewlines(lines[1..]);
      NoNewlineIn(lines[0]);
      NewlinesAppend(lines[0] + "\n", rest);
      NewlinesAppend(lines[0], "\n");
      assert "\n"[..0] == "";
    }
  }

  lemma {:induction false} ParsedLength(lines: seq<string>)
    ensures |V.ParseAll(lines)| == |lines|
  {
    if lines != [] {
      ParsedLength(lines[1..]);
    }
  }

  lemma {:induction false} ItemLength(items: seq<Item>)
    ensures |ItemRaws(items)| == |items| == |ItemLines(items)|
  {
    if items != [] {
      ItemLength(items[1..]);
    }
  }

  lemma PathItemsFirst(path: string, body: seq<Item>)
    ensures
      var items := PathItems(path) + body;
      ItemLines(items) != [] && ItemLines(items)[0] == "--- " + path
      && ItemRaws(items) != [] && ItemRaws(items)[0] == RawLine(Header, None, "--- " + path)
  {
    assert (PathItems(path) + body)[0] == Meta(Header, "--- " + path);
  }

  /** The second header line and the body keep their lines. */
  lemma PathLinesStay(path: string, body: seq<Item>)
    requires '\n' !in path && AllPrintable(body)
    ensures NoNewlines(ItemLines(PathItems(path) + body))
  {
    PrintableLines(body);
    ItemLinesAppend(PathItems(path), body);
    var a, b := Meta(Header, "--- " + path), Meta(Header, "+++ " + path);
    assert PathItems(path)[0] == a && PathItems(path)[1..] == [b] && [b][0] == b && [b][1..] == [];
    assert ItemLines(PathItems(path)) == ["--- " + path, "+++ " + path];
  }

  /** With a newline in the path there are too many lines; with a carriage return at its end the first
      line is read without it. */
  lemma UncleanPathIsLost(path: string, body: seq<Item>)
    requires !CleanPath(path) && AllPrintable(body)
    ensures V.ParseAll(LinesOf(ItemsText(PathItems(path) + body))) != ItemRaws(PathItems(path) + body)
  {
    var items := PathItems(path) + body;
    var lines := ItemLines(items);
    PathItemsFirst(path, body);
    ItemLength(items);
    if '\n' in path {
      assert forall i :: 0 <= i < |path| ==> lines[0][i + 4] == path[i];
      UnlinesNewlines(lines);
      AtLeastItsNewlines(Unlines(lines));
      ParsedLength(LinesOf(Unlines(lines)));
    } else {
      PathLinesStay(path, body);
      LinesOfUnlines(lines);
      var n := |path| - 1;
      assert StripCr("--- " + path) == "--- " + path[..n];
      FileHeaderRead('-', path[..n]);
      assert ['-', '-', '-', ' '] == "--- ";
      assert V.ParseAll(StripAll(lines))[0] == ParseLine(StripCr(lines[0]));
    }
  }

  /** Headers and body are read back if and only if the path fits on its line and every row is recoverable. */
  lemma RenderingRoundTrip(path: string, body: seq<Item>)
    requires AllPrintable(body)
    ensures V.ParseAll(LinesOf(ItemsText(PathItems(path) + body))) == ItemRaws(PathItems(path) + body)
            <==> CleanPath(path) && AllRecoverable(body)
  {
    if CleanPath(path) {
      PathItemsPrintable(path);
      ItemLinesAppend(PathItems(path), body);
      ItemsRoundTrip(PathItems(path) + body);
    } else {
      UncleanPathIsLost(path, body);
    }
  }

  // ----- print, then read -------------------------------------------------------------------------

  function FullFileRows(changes: seq<LineChange>, prev: Lines, curr: Lines): seq<Item> {
    BodyItems(FullFileBody(changes, prev, curr), prev, curr)
  }

  function ContextRows(changes: seq<LineChange>, prev: Lines, curr: Lines, ctx: nat): seq<Item> {
    var es := Walk(changes, 0, 0, |prev|, |curr|);
    HunkItems(es, RangesOf(es, ctx), prev, curr)
  }

  /** What the dashboard reads out of a rendering. */
  function ReadRendering(render: string): (V.DiffFormat, seq<RawLine>) {
    var (format, text) := V.ParseFormatPrefix(render);
    (format, V.ParseAll(LinesOf(text)))
  }

  /** The dashboard recovers every line of a full-file rendering of two texts, with kind, number and
      content, if and only if the path fits on its line and every row is recoverable. */
  lemma FullFileRoundTrip(report: Report, previous: string, current: string, path: string)
    requires FullFileOutput(report, LinesOf(previous), LinesOf(current), path).Changed?
    ensures
      var prev, curr := LinesOf(previous), LinesOf(current);
      var (format, raw) := ReadRendering(FullFileOutput(report, prev, curr, path).render);
      var rows := FullFileRows(AllChanges(report.chunks), prev, curr);
      format == V.FullFile
      && (raw == ItemRaws(PathItems(path) + rows) <==> CleanPath(path) && AllRecoverable(rows))
  {
    LinesHaveNoNewlines(previous);
    LinesHaveNoNewlines(current);
    FullFileRead(report, LinesOf(previous), LinesOf(current), path);
  }

  lemma FullFileRead(report: Report, prev: Lines, curr: Lines, path: string)
    requires NoNewlines(prev) && NoNewlines(curr) && FullFileOutput(report, prev, curr, path).Changed?
    ensures
      var (format, raw) := ReadRendering(FullFileOutput(report, prev, curr, path).render);
      var rows := FullFileRows(AllChanges(report.chunks), prev, curr);
      format == V.FullFile
      && (raw == ItemRaws(PathItems(path) + rows) <==> CleanPath(path) && AllRecoverable(rows))
  {
    var es := FullFileBody(AllChanges(report.chunks), prev, curr);
    var body := BodyItems(es, prev, curr);
    PathItemsText(path);
    BodyItemsText(es, prev, curr);
    ItemsTextAppend(PathItems(path), body);
    BodyItemsPrintable(es, prev, curr);
    RenderingRoundTrip(path, body);
    RenderingRead(V.FullFile, PathLines(path), EntriesText(es, prev, curr));
  }

  /** The same for a context rendering, whose hunk headers are read as hunk headers. */
  lemma ContextRoundTrip(report: Report, previous: string, current: string, path: string, ctx: nat)
    requires ContextOutput(report, LinesOf(previous), LinesOf(current), path, ctx).Changed?
    ensures
      var prev, curr := LinesOf(previous), LinesOf(current);
      var (format, raw) := ReadRendering(ContextOutput(report, prev, curr, path, ctx).render);
      var rows := ContextRows(AllChanges(report.chunks), prev, curr, ctx);
      format == V.Context
      && (raw == ItemRaws(PathItems(path) + rows) <==> CleanPath(path) && AllRecoverable(rows))
  {
    LinesHaveNoNewlines(previous);
    LinesHaveNoNewlines(current);
    ContextRead(report, LinesOf(previous), LinesOf(current), path, ctx);
  }

  lemma ContextRead(report: Report, prev: Lines, curr: Lines, path: string, ctx: nat)
    requires NoNewlines(prev) && NoNewlines(curr) && ContextOutput(report, prev, curr, path, ctx).Changed?
    ensures
      var (format, raw) := ReadRendering(ContextOutput(report, prev, curr, path, ctx).render);
      var rows := ContextRows(AllChanges(report.chunks), prev, curr, ctx);
      format == V.Context
      && (raw == ItemRaws(PathItems(path) + rows) <==> CleanPath(path) && AllRecoverable(rows))
  {
    var es := Walk(AllChanges(report.chunks), 0, 0, |prev|, |curr|);
    var ranges := RangesOf(es, ctx);
    var body := HunkItems(es, ranges, prev, curr);
    PathItemsText(path);
    HunkItemsText(es, ranges, prev, curr);
    ItemsTextAppend(PathItems(path), body);
    HunkItemsPrintable(es, ranges, prev, curr);
    RenderingRoundTrip(path, body);
    RenderingRead(V.Context, PathLines(path), HunksText(es, ranges, prev, curr));
  }

  lemma RenderingRead(format: V.DiffFormat, head: string, body: string)
    ensures ReadRendering(V.PrefixOf(format) + head + body) == (format, V.ParseAll(LinesOf(head + body)))
  {
    assert V.PrefixOf(format) + head + body == V.PrefixOf(format) + (head + body);
    V.PrefixRead(format, head + body);
  }

  // ----- from the files to the screen ---------------------------------------------------------------

  lemma {:induction false} SidesOfFiltered(raw: seq<RawLine>)
    ensures OldSide(T.NonAdded(raw)) == OldSide(raw)
    ensures NewSide(T.NonRemoved(raw)) == NewSide(raw)
  {
    if raw != [] {
      SidesOfFiltered(raw[1..]);
      if !raw[0].kind.AddedLine? {
        assert T.NonAdded(raw)[0] == raw[0] && T.NonAdded(raw)[1..] == T.NonAdded(raw[1..]);
      }
      if !raw[0].kind.RemovedLine? {
        assert T.NonRemoved(raw)[0] == raw[0] && T.NonRemoved(raw)[1..] == T.NonRemoved(raw[1..]);
      }
    }
  }

  /** The rows of entries, as they are meant and as they are read. */
  lemma {:induction false} BodyItemsRows(es: seq<Entry>, prev: Lines, curr: Lines)
    ensures
      var items, rows := BodyItems(es, prev, curr), RowsOf(es, prev, curr);
      && BodyRows(rows) && ItemRaws(items) == RawsOf(rows)
      && V.ParseAll(StripAll(ItemLines(items))) == ReadRows(rows)
      && (AllRecoverable(items) <==> RowsRecoverable(rows))
  {
    if es != [] {
      BodyItemsRows(es[1..], prev, curr);
      var items, rows := BodyItems(es, prev, curr), RowsOf(es, prev, curr);
      assert items[0] == Body(RowOf(es[0], prev, curr)) && items[1..] == BodyItems(es[1..], prev, curr);
      assert rows[0] == RowOf(es[0], prev, curr) && rows[1..] == RowsOf(es[1..], prev, curr);
      StripCons(ItemLine(items[0]), ItemLines(items[1..]));
      ParseCons(StripCr(ItemLine(items[0])), StripAll(ItemLines(items[1..])));
    }
  }

  lemma {:induction false} SidesOfRaws(rows: seq<Row>)
    requires BodyRows(rows)
    ensures OldSide(RawsOf(rows)) == WithoutAdded(rows) && NewSide(RawsOf(rows)) == WithoutRemoved(rows)
  {
    if rows != [] {
      SidesOfRaws(rows[1..]);
      assert RawsOf(rows)[0] == AsRaw(rows[0]) && RawsOf(rows)[1..] == RawsOf(rows[1..]);
    }
  }

  lemma {:induction false} ParseAllAppend(a: seq<string>, b: seq<string>)
    ensures V.ParseAll(a + b) == V.ParseAll(a) + V.ParseAll(b)
  {
    if a == [] {
      assert a + b == b;
    } else {
      assert (a + b)[0] == a[0] && (a + b)[1..] == a[1..] + b;
      ParseAllAppend(a[1..], b);
    }
  }

  /** A text that ends with a newline is a number of lines. */
  lemma {:induction false} CutLines(text: string) returns (lines: Lines)
    requires text != "" ==> text[|text| - 1] == '\n'
    ensures NoNewlines(lines) && Unlines(lines) == text
    decreases |text|
  {
    if text == "" {
      lines := [];
    } else {
      assert text[0..][|text| - 1] == '\n';
      var i := NewlineFrom(text, 0).value;
      var rest := CutLines(text[i + 1..]);
      lines := [text[0..i]] + rest;
      assert lines[1..] == rest;
      assert text == text[0..i] + "\n" + text[i + 1..];
    }
  }

  lemma StripAppend(a: Lines, b: Lines)
    ensures StripAll(a + b) == StripAll(a) + StripAll(b)
  {
  }

  /** Reading a text of lines does not depend on what stands before it. */
  lemma LinesOfAppend(text: string, lines: Lines)
    requires (text != "" ==> text[|text| - 1] == '\n') && NoNewlines(lines)
    ensures LinesOf(text + Unlines(lines)) == LinesOf(text) + LinesOf(Unlines(lines))
  {
    var cut := CutLines(text);
    UnlinesAppend(cut, lines);
    LinesOfUnlines(cut + lines);
    LinesOfUnlines(cut);
    LinesOfUnlines(lines);
    StripAppend(cut, lines);
  }

  /** What the dashboard makes of the two header lines. */
  function HeaderRead(path: string): seq<RawLine> {
    V.ParseAll(LinesOf(PathLines(path)))
  }

  /** The header lines show no line of a file. */
  predicate HeaderOnly(path: string) {
    OldSide(HeaderRead(path)) == [] && NewSide(HeaderRead(path)) == []
  }

  lemma TwoLinesParsed(x: string, y: string)
    ensures V.ParseAll(StripAll([x, y])) == [ParseLine(StripCr(x)), ParseLine(StripCr(y))]
  {
    assert [x, y] == [x] + [y] && [y] == [y] + [];
    StripCons(x, [y]);
    StripCons(y, []);
    ParseCons(StripCr(x), [StripCr(y)]);
    ParseCons(StripCr(y), []);
  }

  lemma PathItemLines(path: string)
    ensures ItemLines(PathItems(path)) == ["--- " + path, "+++ " + path]
  {
    var a, b := Meta(Header, "--- " + path), Meta(Header, "+++ " + path);
    ItemLinesAppend([a], [b]);
    OneItemLine(a);
    OneItemLine(b);
    assert PathItems(path) == [a] + [b];
  }

  lemma OneItemLine(item: Item)
    ensures ItemLines([item]) == [ItemLine(item)]
  {
    assert [item][1..] == [];
  }

  lemma HeaderTextRead(mark: char, path: string)
    requires mark == '-' || mark == '+'
    ensures ParseLine(StripCr([mark, mark, mark, ' '] + path)).kind.Header?
  {
    var marks := [mark, mark, mark, ' '];
    if path != "" && path[|path| - 1] == '\r' {
      FileHeaderRead(mark, path[..|path| - 1]);
      assert (marks + path)[..|marks + path| - 1] == marks + path[..|path| - 1];
    } else {
      FileHeaderRead(mark, path);
    }
  }

  lemma OneLinePathRead(path: string)
    requires '\n' !in path
    ensures HeaderRead(path) == [ParseLine(StripCr("--- " + path)), ParseLine(StripCr("+++ " + path))]
  {
    PathLinesStay(path, []);
    assert PathItems(path) + [] == PathItems(path);
    PathItemsText(path);
    PathItemLines(path);
    LinesOfUnlines(ItemLines(PathItems(path)));
    TwoLinesParsed("--- " + path, "+++ " + path);
  }

  /** A path on one line is never taken for a line of a file. */
  lemma OneLinePathIsHeaderOnly(path: string)
    requires '\n' !in path
    ensures HeaderOnly(path)
  {
    OneLinePathRead(path);
    HeaderTextRead('-', path);
    HeaderTextRead('+', path);
    assert ['-', '-', '-', ' '] == "--- " && ['+', '+', '+', ' '] == "+++ ";
    HeadersShowNothing(ParseLine(StripCr("--- " + path)), ParseLine(StripCr("+++ " + path)));
  }

  lemma HeaderSkipped(a: RawLine, rest: seq<RawLine>)
    requires a.kind.Header?
    ensures OldSide([a] + rest) == OldSide(rest) && NewSide([a] + rest) == NewSide(rest)
  {
    assert ([a] + rest)[0] == a && ([a] + rest)[1..] == rest;
  }

  lemma HeadersShowNothing(a: RawLine, b: RawLine)
    requires a.kind.Header? && b.kind.Header?
    ensures OldSide([a, b]) == [] && NewSide([a, b]) == []
  {
    HeaderSkipped(a, [b] + []);
    HeaderSkipped(b, []);
    assert [a, b] == [a] + ([b] + []);
  }

  lemma PathLinesEnd(path: string)
    ensures PathLines(path) != "" && PathLines(path)[|PathLines(path)| - 1] == '\n'
  {
  }

  /** The lines on screen that are not additions are the previous file, and those that are not removals are
      the current file. */
  predicate HoldsBoth(screen: seq<RawLine>, prev: Lines, curr: Lines) {
    OldSide(screen) == prev && NewSide(screen) == curr
  }

  /** The dashboard's lines for a full-file diff hold both files: render on the agent, send the text, parse it,
      pair the lines. For files of less than 2^32 lines they do if and only if no part of the path is taken for
      a line of a file and every row is recoverable; for longer ones each condition alone is exact when the
      other one holds. A path on one line is never taken for a line of a file. */
  lemma ScreenHoldsBothFiles(report: Report, previous: string, current: string, path: string, differ: V.WordDiffer)
    requires FullFileOutput(report, LinesOf(previous), LinesOf(current), path).Changed?
    requires Faithful(AllChanges(report.chunks), LinesOf(previous), LinesOf(current))
    ensures
      var prev, curr := LinesOf(previous), LinesOf(current);
      var (_, raw) := ReadRendering(FullFileOutput(report, prev, curr, path).render);
      var holds := HoldsBoth(T.Erase(V.BuildFrom(differ, raw, 0)), prev, curr);
      var recoverable := AllRecoverable(FullFileRows(AllChanges(report.chunks), prev, curr));
      && (HeaderOnly(path) ==> (holds <==> recoverable)) && (recoverable ==> (holds <==> HeaderOnly(path)))
      && (|prev| < U32_LIMIT && |curr| < U32_LIMIT ==> (holds <==> HeaderOnly(path) && recoverable))
    ensures '\n' !in path ==> HeaderOnly(path)
  {
    if '\n' !in path {
      OneLinePathIsHeaderOnly(path);
    }
    LinesHaveNoNewlines(previous);
    LinesHaveNoNewlines(current);
    var prev, curr := LinesOf(previous), LinesOf(current);
    var (_, raw) := ReadRendering(FullFileOutput(report, prev, curr, path).render);
    FullFileLines(report, prev, curr, path);
    ScreenOf(AllChanges(report.chunks), prev, curr, path, differ, raw);
  }

  lemma FullFileLines(report: Report, prev: Lines, curr: Lines, path: string)
    requires FullFileOutput(report, prev, curr, path).Changed?
    ensures
      var es := FullFileBody(AllChanges(report.chunks), prev, curr);
      ReadRendering(FullFileOutput(report, prev, curr, path).render).1
      == V.ParseAll(LinesOf(PathLines(path) + EntriesText(es, prev, curr)))
  {
    var es := FullFileBody(AllChanges(report.chunks), prev, curr);
    RenderingRead(V.FullFile, PathLines(path), EntriesText(es, prev, curr));
  }

  lemma ScreenOf(changes: seq<LineChange>, prev: Lines, curr: Lines, path: string, differ: V.WordDiffer,
                 raw: seq<RawLine>)
    requires NoNewlines(prev) && NoNewlines(curr) && Faithful(changes, prev, curr)
    requires raw == V.ParseAll(LinesOf(PathLines(path) + EntriesText(FullFileBody(changes, prev, curr), prev, curr)))
    ensures
      var holds := HoldsBoth(T.Erase(V.BuildFrom(differ, raw, 0)), prev, curr);
      var recoverable := AllRecoverable(FullFileRows(changes, prev, curr));
      && (HeaderOnly(path) ==> (holds <==> recoverable)) && (recoverable ==> (holds <==> HeaderOnly(path)))
      && (|prev| < U32_LIMIT && |curr| < U32_LIMIT ==> (holds <==> HeaderOnly(path) && recoverable))
  {
    var es := FullFileBody(changes, prev, curr);
    RenderingSides(path, es, prev, curr);
    ScreenSides(differ, raw);
    LinesHoldIff(changes, prev, curr, path);
  }

  /** The header lines and the rows, as they are read. */
  predicate LinesHold(changes: seq<LineChange>, prev: Lines, curr: Lines, path: string) {
    var rows := ReadRows(RowsOf(FullFileBody(changes, prev, curr), prev, curr));
    OldSide(HeaderRead(path)) + OldSide(rows) == prev && NewSide(HeaderRead(path)) + NewSide(rows) == curr
  }

  lemma LinesHoldIff(changes: seq<LineChange>, prev: Lines, curr: Lines, path: string)
    requires Faithful(changes, prev, curr)
    ensures
      var holds := LinesHold(changes, prev, curr, path);
      var recoverable := AllRecoverable(FullFileRows(changes, prev, curr));
      && (HeaderOnly(path) ==> (holds <==> recoverable)) && (recoverable ==> (holds <==> HeaderOnly(path)))
      && (|prev| < U32_LIMIT && |curr| < U32_LIMIT ==> (holds <==> HeaderOnly(path) && recoverable))
  {
    var rows := ReadRows(RowsOf(FullFileBody(changes, prev, curr), prev, curr));
    RowsHoldBothIff(changes, prev, curr);
    HeaderBefore(path, OldSide(rows), NewSide(rows), prev, curr);
    if |prev| < U32_LIMIT && |curr| < U32_LIMIT {
      HeaderAndRowsIff(changes, prev, curr, path);
    }
  }

  lemma {:induction false} NumbersFitFiles(es: seq<Entry>, prev: Lines, curr: Lines)
    requires InBounds(es, |prev|, |curr|) && |prev| < U32_LIMIT && |curr| < U32_LIMIT
    ensures NumbersFit(RowsOf(es, prev, curr))
  {
    if es != [] {
      assert InBounds(es[1..], |prev|, |curr|);
      NumbersFitFiles(es[1..], prev, curr);
      var rows := RowsOf(es, prev, curr);
      assert EntryInBounds(es[0], |prev|, |curr|);
      assert rows[0] == RowOf(es[0], prev, curr) && rows[1..] == RowsOf(es[1..], prev, curr);
    }
  }

  lemma {:induction false} AllParsedUnmarked(lines: seq<string>)
    ensures Unmarked(V.ParseAll(lines))
  {
    if lines != [] {
      AllParsedUnmarked(lines[1..]);
      ParsedUnmarked(lines[0]);
      assert V.ParseAll(lines)[0] == ParseLine(lines[0]) && V.ParseAll(lines)[1..] == V.ParseAll(lines[1..]);
    }
  }

  lemma HeaderAndRowsIff(changes: seq<LineChange>, prev: Lines, curr: Lines, path: string)
    requires Faithful(changes, prev, curr) && |prev| < U32_LIMIT && |curr| < U32_LIMIT
    ensures LinesHold(changes, prev, curr, path)
            <==> HeaderOnly(path) && AllRecoverable(FullFileRows(changes, prev, curr))
  {
    var es := FullFileBody(changes, prev, curr);
    FullFileIsLossless(changes, prev, curr);
    BodyItemsRows(es, prev, curr);
    SidesOfRaws(RowsOf(es, prev, curr));
    WalkInBounds(changes, 0, 0, |prev|, |curr|);
    NumbersFitFiles(es, prev, curr);
    AllParsedUnmarked(LinesOf(PathLines(path)));
    SidesWithFrontIff(HeaderRead(path), RowsOf(es, prev, curr));
  }

  lemma RowsHoldBothIff(changes: seq<LineChange>, prev: Lines, curr: Lines)
    requires Faithful(changes, prev, curr)
    ensures HoldsBoth(ReadRows(RowsOf(FullFileBody(changes, prev, curr), prev, curr)), prev, curr)
            <==> AllRecoverable(FullFileRows(changes, prev, curr))
  {
    var es := FullFileBody(changes, prev, curr);
    FullFileIsLossless(changes, prev, curr);
    BodyItemsRows(es, prev, curr);
    SidesOfRaws(RowsOf(es, prev, curr));
    SidesReadIffRecoverable(RowsOf(es, prev, curr));
  }

  lemma HeaderBefore(path: string, left: Lines, right: Lines, prev: Lines, curr: Lines)
    ensures
      var holds := OldSide(HeaderRead(path)) + left == prev && NewSide(HeaderRead(path)) + right == curr;
      && (HeaderOnly(path) ==> (holds <==> left == prev && right == curr))
      && (left == prev && right == curr ==> (holds <==> HeaderOnly(path)))
  {
    OnlyEmptyBefore(OldSide(HeaderRead(path)), left);
    OnlyEmptyBefore(NewSide(HeaderRead(path)), right);
  }

  lemma RenderingSides(path: string, es: seq<Entry>, prev: Lines, curr: Lines)
    requires NoNewlines(prev) && NoNewlines(curr)
    ensures
      var raw := V.ParseAll(LinesOf(PathLines(path) + EntriesText(es, prev, curr)));
      var rows := ReadRows(RowsOf(es, prev, curr));
      && OldSide(raw) == OldSide(HeaderRead(path)) + OldSide(rows)
      && NewSide(raw) == NewSide(HeaderRead(path)) + NewSide(rows)
  {
    var body := BodyItems(es, prev, curr);
    BodyItemsText(es, prev, curr);
    BodyItemsPrintable(es, prev, curr);
    PathLinesEnd(path);
    PrintableLines(body);
    LinesOfAppend(PathLines(path), ItemLines(body));
    LinesOfUnlines(ItemLines(body));
    ParseAllAppend(LinesOf(PathLines(path)), LinesOf(ItemsText(body)));
    BodyItemsRows(es, prev, curr);
    SidesAppend(HeaderRead(path), ReadRows(RowsOf(es, prev, curr)));
  }

  lemma OnlyEmptyBefore(head: Lines, lines: Lines)
    ensures head + lines == lines <==> head == []
  {
    assert |head + lines| == |head| + |lines|;
  }

  lemma ScreenSides(differ: V.WordDiffer, raw: seq<RawLine>)
    ensures OldSide(T.Erase(V.BuildFrom(differ, raw, 0))) == OldSide(raw)
    ensures NewSide(T.Erase(V.BuildFrom(differ, raw, 0))) == NewSide(raw)
  {
    var screen := T.Erase(V.BuildFrom(differ, raw, 0));
    T.PairingKeepsLines(differ, raw, 0);
    assert raw[0..] == raw;
    SidesOfFiltered(screen);
    SidesOfFiltered(raw);
  }
}
