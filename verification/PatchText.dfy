/** The text of a context rendering as a patch: hunk headers read back into numbers, rows into patch lines. */
module PatchText {
  import opened Options
  import opened EditScripts
  import opened LineWalk
  import opened HunkRanges
  import opened DiffText
  import opened Patches
  import opened ContextHunks
  import opened Rendering
  import opened ContextRendering
  import opened DiffTheorems
  import opened RoundTrip

  // ----- reading a hunk header ------------------------------------------------------------------------

  function DigitCount(text: string): (k: nat)
    ensures k <= |text| && forall i :: 0 <= i < k ==> IsDigit(text[i])
  {
    if text != "" && IsDigit(text[0]) then DigitCount(text[1..]) + 1 else 0
  }

  /** A decimal number followed by `mark`, and what comes after them. */
  function TakeNumber(text: string, mark: string): Option<(nat, string)> {
    var k := DigitCount(text);
    if k > 0 && mark <= text[k..] then Some((DecimalValue(text[..k]), text[k + |mark|..])) else None
  }

  /** Old start and count, new start and count. */
  datatype Numbers = Numbers(oldStart: nat, oldCount: nat, newStart: nat, newCount: nat)

  function ReadNumbers(text: string): Option<Numbers> {
    if !("@@ -" <= text) then None
    else
      var a := TakeNumber(text[4..], ",");
      if a.None? then None
      else
        var b := TakeNumber(a.value.1, " +");
        if b.None? then None
        else
          var c := TakeNumber(b.value.1, ",");
          if c.None? then None
          else
            var d := TakeNumber(c.value.1, " @@");
            if d.None? || d.value.1 != "" then None
            else Some(Numbers(a.value.0, b.value.0, c.value.0, d.value.0))
  }

  lemma {:induction false} DigitsThenMark(digits: string, mark: string, rest: string)
    requires AllDigits(digits) && mark != "" && !IsDigit(mark[0])
    ensures DigitCount(digits + (mark + rest)) == |digits|
  {
    var text := digits + (mark + rest);
    if digits == "" {
      assert text[0] == mark[0];
    } else {
      assert text[0] == digits[0] && text[1..] == digits[1..] + (mark + rest);
      DigitsThenMark(digits[1..], mark, rest);
    }
  }

  lemma TakePrinted(n: nat, mark: string, rest: string)
    requires mark != "" && !IsDigit(mark[0])
    ensures TakeNumber(Decimal(n) + (mark + rest), mark) == Some((n, rest))
  {
    var text := Decimal(n) + (mark + rest);
    DigitsThenMark(Decimal(n), mark, rest);
    DecimalRoundTrip(n);
    assert text[..|Decimal(n)|] == Decimal(n) && text[|Decimal(n)|..] == mark + rest;
    assert (mark + rest)[..|mark|] == mark;
    assert text[|Decimal(n)| + |mark|..] == rest;
  }

  lemma ReadParts(text: string, b: string, c: string, d: string, n: Numbers)
    requires "@@ -" <= text && TakeNumber(text[4..], ",") == Some((n.oldStart, b))
    requires TakeNumber(b, " +") == Some((n.oldCount, c)) && TakeNumber(c, ",") == Some((n.newStart, d))
    requires TakeNumber(d, " @@") == Some((n.newCount, ""))
    ensures ReadNumbers(text) == Some(n)
  {
  }

  lemma Group(a: string, b: string, c: string)
    ensures a + b + c == a + (b + c)
  {
  }

  /** The pieces of a header, grouped from the right. */
  lemma HeaderParts(a: string, b: string, c: string, d: string)
    ensures "@@ -" + a + "," + b + " +" + c + "," + d + " @@"
         == "@@ -" + (a + ("," + (b + (" +" + (c + ("," + (d + (" @@" + ""))))))))
  {
    var tail := " @@" + "";
    assert tail == " @@";
    Group("@@ -" + a + "," + b + " +" + c + ",", d, tail);
    Group("@@ -" + a + "," + b + " +" + c, ",", d + tail);
    Group("@@ -" + a + "," + b + " +", c, "," + (d + tail));
    Group("@@ -" + a + "," + b, " +", c + ("," + (d + tail)));
    Group("@@ -" + a + ",", b, " +" + (c + ("," + (d + tail))));
    Group("@@ -" + a, ",", b + (" +" + (c + ("," + (d + tail)))));
    Group("@@ -", a, "," + (b + (" +" + (c + ("," + (d + tail))))));
  }

  /** A printed hunk header is read back as its four numbers. */
  lemma HeaderNumbersRead(h: Hunk)
    ensures ReadNumbers(HeaderLine(h)) == Some(Numbers(h.prevStart, h.prevCount, h.currStart, h.currCount))
  {
    var d := Decimal(h.currCount) + (" @@" + "");
    var c := Decimal(h.currStart) + ("," + d);
    var b := Decimal(h.prevCount) + (" +" + c);
    var a := Decimal(h.prevStart) + ("," + b);
    HeaderParts(Decimal(h.prevStart), Decimal(h.prevCount), Decimal(h.currStart), Decimal(h.currCount));
    TakePrinted(h.prevStart, ",", b);
    TakePrinted(h.prevCount, " +", c);
    TakePrinted(h.currStart, ",", d);
    TakePrinted(h.currCount, " @@", "");
    AfterMark(HeaderLine(h), a);
    ReadParts(HeaderLine(h), b, c, d, Numbers(h.prevStart, h.prevCount, h.currStart, h.currCount));
  }

  lemma AfterMark(text: string, a: string)
    requires text == "@@ -" + a
    ensures "@@ -" <= text && text[4..] == a
  {
  }

  // ----- reading a patch ------------------------------------------------------------------------------

  function BodyLength(raw: seq<RawLine>): (k: nat)
    ensures k <= |raw|
  {
    if raw != [] && IsBodyKind(raw[0].kind) then BodyLength(raw[1..]) + 1 else 0
  }

  function PatchLines(raw: seq<RawLine>): seq<PatchLine> {
    if raw == [] then []
    else
      [match raw[0].kind
       case AddedLine => Insert(raw[0].content)
       case RemovedLine => Delete(raw[0].content)
       case _ => Keep(raw[0].content)] + PatchLines(raw[1..])
  }

  /** The hunks among the lines the dashboard reads; no patch if a row or a header is out of place. */
  function ReadPatch(raw: seq<RawLine>): Option<seq<PatchHunk>>
    decreases |raw|
  {
    if raw == [] then Some([])
    else if raw[0].kind.Header? then ReadPatch(raw[1..])
    else if raw[0].kind.HunkMeta? then
      var numbers := ReadNumbers(raw[0].content);
      var k := BodyLength(raw[1..]);
      var rest := ReadPatch(raw[1..][k..]);
      if numbers.None? || rest.None? then None
      else
        var n := numbers.value;
        Some([PatchHunk(n.oldStart, n.oldCount, n.newStart, n.newCount, PatchLines(raw[1..][..k]))] + rest.value)
    else None
  }

  lemma {:induction false} BodyRead(es: seq<Entry>, rest: seq<RawLine>, prev: Lines, curr: Lines)
    requires rest == [] || !IsBodyKind(rest[0].kind)
    ensures
      var body := ItemRaws(BodyItems(es, prev, curr));
      BodyLength(body + rest) == |body| && PatchLines(body) == BodyOf(RowsOf(es, prev, curr))
  {
    var body := ItemRaws(BodyItems(es, prev, curr));
    if es == [] {
      assert body + rest == rest;
    } else {
      BodyRead(es[1..], rest, prev, curr);
      var row := RowOf(es[0], prev, curr);
      var tail := ItemRaws(BodyItems(es[1..], prev, curr));
      var items := BodyItems(es, prev, curr);
      assert items[0] == Body(row) && items[1..] == BodyItems(es[1..], prev, curr);
      assert body == [AsRaw(row)] + tail;
      assert (body + rest)[0] == AsRaw(row) && (body + rest)[1..] == tail + rest;
      assert body[1..] == tail;
      var rows := RowsOf(es, prev, curr);
      assert rows[0] == row && rows[1..] == RowsOf(es[1..], prev, curr);
    }
  }

  lemma {:induction false} ItemRawsAppend(a: seq<Item>, b: seq<Item>)
    ensures ItemRaws(a + b) == ItemRaws(a) + ItemRaws(b)
  {
    if a == [] {
      assert a + b == b;
    } else {
      assert (a + b)[0] == a[0] && (a + b)[1..] == a[1..] + b;
      ItemRawsAppend(a[1..], b);
    }
  }

  /** The lines of one hunk before the others. */
  lemma HunkRead(hunk: seq<Entry>, rest: seq<RawLine>, prev: Lines, curr: Lines)
    requires rest == [] || !IsBodyKind(rest[0].kind)
    ensures
      var h := HunkOf(hunk, prev, curr);
      var body := ItemRaws(BodyItems(hunk, prev, curr));
      ReadPatch([RawLine(HunkMeta, None, HeaderLine(h))] + (body + rest))
      == if ReadPatch(rest).None? then None else Some([PatchOf(h)] + ReadPatch(rest).value)
  {
    var h := HunkOf(hunk, prev, curr);
    var head := RawLine(HunkMeta, None, HeaderLine(h));
    var body := ItemRaws(BodyItems(hunk, prev, curr));
    var raw := [head] + (body + rest);
    assert raw[0] == head && raw[1..] == body + rest;
    HeaderNumbersRead(h);
    BodyRead(hunk, rest, prev, curr);
    assert (body + rest)[..|body|] == body && (body + rest)[|body|..] == rest;
  }

  lemma HunkItemsFirst(es: seq<Entry>, ranges: seq<Range>, prev: Lines, curr: Lines)
    requires ranges != []
    ensures
      var hunk := Slice(es, ranges[0]);
      ItemRaws(HunkItems(es, ranges, prev, curr))
      == [RawLine(HunkMeta, None, HeaderLine(HunkOf(hunk, prev, curr)))]
         + (ItemRaws(BodyItems(hunk, prev, curr)) + ItemRaws(HunkItems(es, ranges[1..], prev, curr)))
  {
    var hunk := Slice(es, ranges[0]);
    var head := Meta(HunkMeta, HeaderLine(HunkOf(hunk, prev, curr)));
    var body, rest := BodyItems(hunk, prev, curr), HunkItems(es, ranges[1..], prev, curr);
    ItemRawsAppend([head] + body, rest);
    ItemRawsAppend([head], body);
    OneRaw(head);
    GroupRaws([ItemRaw(head)], ItemRaws(body), ItemRaws(rest));
  }

  lemma GroupRaws(a: seq<RawLine>, b: seq<RawLine>, c: seq<RawLine>)
    ensures a + b + c == a + (b + c)
  {
  }

  lemma {:induction false} HunksRead(es: seq<Entry>, ranges: seq<Range>, prev: Lines, curr: Lines)
    ensures ReadPatch(ItemRaws(HunkItems(es, ranges, prev, curr)))
            == Some(PatchesOf(RangeHunks(es, ranges, prev, curr)))
  {
    if ranges != [] {
      HunksRead(es, ranges[1..], prev, curr);
      HunkItemsFirst(es, ranges, prev, curr);
      if |ranges| > 1 {
        HunkItemsFirst(es, ranges[1..], prev, curr);
      }
      HunkRead(Slice(es, ranges[0]), ItemRaws(HunkItems(es, ranges[1..], prev, curr)), prev, curr);
      var hs := RangeHunks(es, ranges, prev, curr);
      assert hs[0] == HunkOf(Slice(es, ranges[0]), prev, curr) && hs[1..] == RangeHunks(es, ranges[1..], prev, curr);
    }
  }

  lemma HeadersSkipped(path: string, body: seq<Item>)
    ensures ReadPatch(ItemRaws(PathItems(path) + body)) == ReadPatch(ItemRaws(body))
  {
    var a, b := Meta(Header, "--- " + path), Meta(Header, "+++ " + path);
    assert PathItems(path) == [a] + [b];
    ItemRawsAppend([a] + [b], body);
    ItemRawsAppend([a], [b]);
    OneRaw(a);
    OneRaw(b);
    var rest := ItemRaws(body);
    var raw := [ItemRaw(a)] + [ItemRaw(b)] + rest;
    assert raw[0] == ItemRaw(a) && raw[1..] == [ItemRaw(b)] + rest;
    assert raw[1..][0] == ItemRaw(b) && raw[1..][1..] == rest;
  }

  lemma OneRaw(item: Item)
    ensures ItemRaws([item]) == [ItemRaw(item)]
  {
    assert [item][1..] == [];
  }

  /** The text of a context diff is a patch: for a faithful change list, reading the rendering as the
      dashboard does and the hunk headers as numbers gives a patch that turns the previous file into the
      current one and, reversed, back, if and only if every hunk is anchored; one context line ensures that. */
  lemma ContextTextIsPatch(report: Report, previous: string, current: string, path: string, ctx: nat)
    requires ContextOutput(report, LinesOf(previous), LinesOf(current), path, ctx).Changed?
    requires Faithful(AllChanges(report.chunks), LinesOf(previous), LinesOf(current)) && CleanPath(path)
    requires AllRecoverable(ContextRows(AllChanges(report.chunks), LinesOf(previous), LinesOf(current), ctx))
    ensures
      var prev, curr := LinesOf(previous), LinesOf(current);
      var (_, raw) := ReadRendering(ContextOutput(report, prev, curr, path, ctx).render);
      var anchored := HunksAnchored(Walk(AllChanges(report.chunks), 0, 0, |prev|, |curr|), ctx);
      && ReadPatch(raw).Some? && (ctx >= 1 ==> anchored)
      && ApplyPatch(ReadPatch(raw).value, prev, 0, 0) == (if anchored then Some(curr) else None)
      && ApplyPatch(ReverseAll(ReadPatch(raw).value), curr, 0, 0) == (if anchored then Some(prev) else None)
  {
    LinesHaveNoNewlines(previous);
    LinesHaveNoNewlines(current);
    TextIsPatch(report, LinesOf(previous), LinesOf(current), path, ctx);
  }

  lemma TextIsPatch(report: Report, prev: Lines, curr: Lines, path: string, ctx: nat)
    requires NoNewlines(prev) && NoNewlines(curr) && ContextOutput(report, prev, curr, path, ctx).Changed?
    requires Faithful(AllChanges(report.chunks), prev, curr) && CleanPath(path)
    requires AllRecoverable(ContextRows(AllChanges(report.chunks), prev, curr, ctx))
    ensures
      var (_, raw) := ReadRendering(ContextOutput(report, prev, curr, path, ctx).render);
      var anchored := HunksAnchored(Walk(AllChanges(report.chunks), 0, 0, |prev|, |curr|), ctx);
      && ReadPatch(raw).Some? && (ctx >= 1 ==> anchored)
      && ApplyPatch(ReadPatch(raw).value, prev, 0, 0) == (if anchored then Some(curr) else None)
      && ApplyPatch(ReverseAll(ReadPatch(raw).value), curr, 0, 0) == (if anchored then Some(prev) else None)
  {
    var changes := AllChanges(report.chunks);
    var es := Walk(changes, 0, 0, |prev|, |curr|);
    ContextRead(report, prev, curr, path, ctx);
    HeadersSkipped(path, ContextRows(changes, prev, curr, ctx));
    HunksRead(es, RangesOf(es, ctx), prev, curr);
    ContextDiffIsPatch(changes, prev, curr, ctx);
  }
}
