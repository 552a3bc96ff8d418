/** The text of a context rendering is the patch it stands for exactly when each of its rows can be read back. */
module PatchReading {
  import opened Options
  import opened EditScripts
  import opened LineWalk
  import opened HunkRanges
  import opened DiffText
  import opened RowSides
  import opened Patches
  import opened ContextHunks
  import opened Rendering
  import opened ContextRendering
  import opened DiffTheorems
  import opened RoundTrip
  import opened PatchText
  import V = DiffViewer

  // ----- the lines of the hunks, as they are read -------------------------------------------------------

  function HunkMetaOf(hunk: seq<Entry>, prev: Lines, curr: Lines): RawLine {
    RawLine(HunkMeta, None, HeaderLine(HunkOf(hunk, prev, curr)))
  }

  function PieceRaws(pieces: seq<Piece>, prev: Lines, curr: Lines): seq<RawLine> {
    if pieces == [] then []
    else
      var hunk := pieces[0].hunk;
      [HunkMetaOf(hunk, prev, curr)] + (ReadRows(RowsOf(hunk, prev, curr)) + PieceRaws(pieces[1..], prev, curr))
  }

  lemma MetaRead(hunk: seq<Entry>, prev: Lines, curr: Lines)
    ensures ParseLine(StripCr(HeaderLine(HunkOf(hunk, prev, curr)))) == HunkMetaOf(hunk, prev, curr)
  {
    HunkHeaderRead(HunkOf(hunk, prev, curr));
  }

  lemma {:induction false} HunkItemsRead(es: seq<Entry>, ranges: seq<Range>, i: nat, prev: Lines, curr: Lines)
    requires Follow(ranges, i, |es|)
    ensures V.ParseAll(StripAll(ItemLines(HunkItems(es, ranges, prev, curr))))
            == PieceRaws(Pieces(es, ranges, i), prev, curr)
    ensures AllRecoverable(HunkItems(es, ranges, prev, curr)) <==> PiecesRecoverable(Pieces(es, ranges, i), prev, curr)
  {
    if ranges != [] {
      var hunk, pieces := Slice(es, ranges[0]), Pieces(es, ranges, i);
      var head := Meta(HunkMeta, HeaderLine(HunkOf(hunk, prev, curr)));
      var body, rest := BodyItems(hunk, prev, curr), HunkItems(es, ranges[1..], prev, curr);
      HunkItemsRead(es, ranges[1..], ranges[0].end, prev, curr);
      assert pieces[0].hunk == hunk && pieces[1..] == Pieces(es, ranges[1..], ranges[0].end);
      BodyItemsRows(hunk, prev, curr);
      HunkLines(head, body, rest);
      MetaRead(hunk, prev, curr);
      GroupRaws([HunkMetaOf(hunk, prev, curr)], ReadRows(RowsOf(hunk, prev, curr)), PieceRaws(pieces[1..], prev, curr));
    }
  }

  lemma HunkLines(head: Item, body: seq<Item>, rest: seq<Item>)
    requires head.Meta?
    ensures V.ParseAll(StripAll(ItemLines([head] + body + rest)))
         == [ParseLine(StripCr(head.text))] + V.ParseAll(StripAll(ItemLines(body)))
            + V.ParseAll(StripAll(ItemLines(rest)))
    ensures AllRecoverable([head] + body + rest) <==> AllRecoverable(body) && AllRecoverable(rest)
  {
    ItemLinesAppend([head] + body, rest);
    ItemLinesAppend([head], body);
    OneItem(head);
    OneItemLine(head);
    StripAppend(ItemLines([head] + body), ItemLines(rest));
    StripAppend([head.text], ItemLines(body));
    StripCons(head.text, []);
    ParseAllAppend(StripAll(ItemLines([head] + body)), StripAll(ItemLines(rest)));
    ParseAllAppend([StripCr(head.text)], StripAll(ItemLines(body)));
    ParseCons(StripCr(head.text), []);
    assert [head.text] + [] == [head.text] && [StripCr(head.text)] + [] == [StripCr(head.text)];
  }

  predicate PiecesRecoverable(pieces: seq<Piece>, prev: Lines, curr: Lines) {
    pieces == [] ||
    (RowsRecoverable(RowsOf(pieces[0].hunk, prev, curr)) && PiecesRecoverable(pieces[1..], prev, curr))
  }

  // ----- the hunks that are read ------------------------------------------------------------------------

  predicate AllHeaders(raw: seq<RawLine>) {
    raw == [] || (raw[0].kind.Header? && AllHeaders(raw[1..]))
  }

  predicate BodyOrHeader(raw: seq<RawLine>) {
    raw == [] || ((IsBodyKind(raw[0].kind) || raw[0].kind.Header?) && BodyOrHeader(raw[1..]))
  }

  /** Lost rows are read as file headers; the lines of a hunk go on only until the first of them. */
  predicate LostOnlyAtEnd(raw: seq<RawLine>) {
    AllHeaders(raw[BodyLength(raw)..])
  }

  lemma {:induction false} ReadRowsKinds(rows: seq<Row>)
    requires BodyRows(rows)
    ensures BodyOrHeader(ReadRows(rows))
  {
    if rows != [] {
      ReadRowsKinds(rows[1..]);
      ReadRowIs(rows[0]);
      assert ReadRows(rows)[0] == ReadRow(rows[0]) && ReadRows(rows)[1..] == ReadRows(rows[1..]);
    }
  }

  lemma {:induction false} BodyLengthOf(body: seq<RawLine>, rest: seq<RawLine>)
    requires rest == [] || !IsBodyKind(rest[0].kind)
    ensures BodyLength(body + rest) == BodyLength(body)
  {
    if body == [] {
      assert body + rest == rest;
    } else {
      assert (body + rest)[0] == body[0] && (body + rest)[1..] == body[1..] + rest;
      BodyLengthOf(body[1..], rest);
    }
  }

  /** After the body of a hunk come lost rows, or the text is no patch. */
  lemma {:induction false} SkipHeaders(raw: seq<RawLine>, rest: seq<RawLine>)
    requires BodyOrHeader(raw)
    ensures ReadPatch(raw + rest) == if AllHeaders(raw) then ReadPatch(rest) else None
  {
    if raw == [] {
      assert raw + rest == rest;
    } else {
      assert (raw + rest)[0] == raw[0] && (raw + rest)[1..] == raw[1..] + rest;
      SkipHeaders(raw[1..], rest);
    }
  }

  lemma {:induction false} DropKinds(raw: seq<RawLine>, k: nat)
    requires BodyOrHeader(raw) && k <= |raw|
    ensures BodyOrHeader(raw[k..])
  {
    if k > 0 {
      DropKinds(raw[1..], k - 1);
      assert raw[k..] == raw[1..][k - 1..];
    } else {
      assert raw[0..] == raw;
    }
  }

  function HunkRead(hunk: seq<Entry>, prev: Lines, curr: Lines): PatchHunk {
    var h, raw := HunkOf(hunk, prev, curr), ReadRows(RowsOf(hunk, prev, curr));
    PatchHunk(h.prevStart, h.prevCount, h.currStart, h.currCount, PatchLines(raw[..BodyLength(raw)]))
  }

  function PiecesRead(pieces: seq<Piece>, prev: Lines, curr: Lines): seq<PatchHunk> {
    if pieces == [] then [] else [HunkRead(pieces[0].hunk, prev, curr)] + PiecesRead(pieces[1..], prev, curr)
  }

  predicate AllLostAtEnd(pieces: seq<Piece>, prev: Lines, curr: Lines) {
    pieces == [] ||
    (LostOnlyAtEnd(ReadRows(RowsOf(pieces[0].hunk, prev, curr))) && AllLostAtEnd(pieces[1..], prev, curr))
  }

  lemma MetaThenBody(meta: RawLine, n: Numbers, raw: seq<RawLine>, k: nat, rest: seq<RawLine>)
    requires meta.kind.HunkMeta? && ReadNumbers(meta.content) == Some(n)
    requires BodyOrHeader(raw) && k == BodyLength(raw) && (rest == [] || !IsBodyKind(rest[0].kind))
    ensures
      var h := PatchHunk(n.oldStart, n.oldCount, n.newStart, n.newCount, PatchLines(raw[..k]));
      ReadPatch([meta] + (raw + rest))
      == if AllHeaders(raw[k..]) && ReadPatch(rest).Some? then Some([h] + ReadPatch(rest).value) else None
  {
    MetaFirst(meta, n, raw + rest, k);
    BodyLengthOf(raw, rest);
    CutBody(raw, rest, k);
    DropKinds(raw, k);
    SkipHeaders(raw[k..], rest);
  }

  lemma CutBody(raw: seq<RawLine>, rest: seq<RawLine>, k: nat)
    requires k <= |raw|
    ensures (raw + rest)[..k] == raw[..k] && (raw + rest)[k..] == raw[k..] + rest
  {
  }

  lemma MetaFirst(meta: RawLine, n: Numbers, raw: seq<RawLine>, k: nat)
    requires meta.kind.HunkMeta? && ReadNumbers(meta.content) == Some(n)
    ensures
      BodyLength(raw) == k ==>
        var h := PatchHunk(n.oldStart, n.oldCount, n.newStart, n.newCount, PatchLines(raw[..k]));
        ReadPatch([meta] + raw)
        == if ReadPatch(raw[k..]).Some? then Some([h] + ReadPatch(raw[k..]).value) else None
  {
    var all := [meta] + raw;
    assert all[0] == meta && all[1..] == raw;
  }

  lemma OneHunkRead(hunk: seq<Entry>, rest: seq<RawLine>, prev: Lines, curr: Lines)
    requires rest == [] || !IsBodyKind(rest[0].kind)
    ensures
      var raw := ReadRows(RowsOf(hunk, prev, curr));
      ReadPatch([HunkMetaOf(hunk, prev, curr)] + (raw + rest))
      == if LostOnlyAtEnd(raw) && ReadPatch(rest).Some? then Some([HunkRead(hunk, prev, curr)] + ReadPatch(rest).value)
         else None
  {
    var h, raw := HunkOf(hunk, prev, curr), ReadRows(RowsOf(hunk, prev, curr));
    HeaderNumbersRead(h);
    BodyItemsRows(hunk, prev, curr);
    ReadRowsKinds(RowsOf(hunk, prev, curr));
    MetaThenBody(HunkMetaOf(hunk, prev, curr), Numbers(h.prevStart, h.prevCount, h.currStart, h.currCount), raw,
                 BodyLength(raw), rest);
  }

  lemma {:induction false} PieceRawsRead(pieces: seq<Piece>, prev: Lines, curr: Lines)
    ensures ReadPatch(PieceRaws(pieces, prev, curr))
         == if AllLostAtEnd(pieces, prev, curr) then Some(PiecesRead(pieces, prev, curr)) else None
  {
    if pieces != [] {
      PieceRawsRead(pieces[1..], prev, curr);
      if |pieces| > 1 {
        assert PieceRaws(pieces[1..], prev, curr)[0] == HunkMetaOf(pieces[1].hunk, prev, curr);
      }
      OneHunkRead(pieces[0].hunk, PieceRaws(pieces[1..], prev, curr), prev, curr);
    }
  }

  // ----- a patch that works shows every row -------------------------------------------------------------

  function OldLines(body: seq<PatchLine>): Lines {
    if body == [] then [] else (if body[0].Insert? then [] else [body[0].text]) + OldLines(body[1..])
  }

  function NewLines(body: seq<PatchLine>): Lines {
    if body == [] then [] else (if body[0].Delete? then [] else [body[0].text]) + NewLines(body[1..])
  }

  lemma JoinSlices(file: Lines, at: nat, next: nat, end: nat)
    requires at <= next <= end <= |file|
    ensures file[at..end] == file[at..next] + file[next..end]
  {
  }

  lemma LineMeans(l: PatchLine, file: Lines, at: nat)
    requires at <= |file| && ApplyLine(l, file, at).Some?
    ensures
      var b := ApplyLine(l, file, at).value;
      && at <= b.next <= |file| && file[at..b.next] == (if l.Insert? then [] else [l.text])
      && b.output == (if l.Delete? then [] else [l.text])
  {
  }

  /** A body that applies finds its old lines in the file, and leaves its new lines. */
  lemma {:induction false} BodyMeans(body: seq<PatchLine>, file: Lines, at: nat, b: Applied)
    requires at <= |file| && ApplyBody(body, file, at) == Some(b)
    ensures at <= b.next <= |file| && file[at..b.next] == OldLines(body) && b.output == NewLines(body)
  {
    if body != [] {
      var next := ApplyLine(body[0], file, at).value.next;
      var rest := ApplyBody(body[1..], file, next).value;
      LineMeans(body[0], file, at);
      BodyMeans(body[1..], file, next, rest);
      JoinSlices(file, at, next, rest.next);
    }
  }

  lemma {:induction false} PatchLinesSides(raw: seq<RawLine>)
    requires BodyLength(raw) == |raw|
    ensures OldLines(PatchLines(raw)) == OldSide(raw) && NewLines(PatchLines(raw)) == NewSide(raw)
  {
    if raw != [] {
      PatchLinesSides(raw[1..]);
      var lines := PatchLines(raw);
      assert lines[1..] == PatchLines(raw[1..]);
    }
  }

  lemma {:induction false} BodyIsBody(raw: seq<RawLine>)
    ensures BodyLength(raw[..BodyLength(raw)]) == BodyLength(raw)
  {
    if raw != [] && IsBodyKind(raw[0].kind) {
      BodyIsBody(raw[1..]);
      assert raw[..BodyLength(raw)][1..] == raw[1..][..BodyLength(raw[1..])];
    }
  }

  lemma {:induction false} HeadersShowNone(raw: seq<RawLine>)
    requires AllHeaders(raw)
    ensures OldSide(raw) == [] && NewSide(raw) == []
  {
    if raw != [] {
      HeadersShowNone(raw[1..]);
    }
  }

  lemma BodySides(raw: seq<RawLine>, k: nat)
    requires k == BodyLength(raw) && AllHeaders(raw[k..])
    ensures OldLines(PatchLines(raw[..k])) == OldSide(raw) && NewLines(PatchLines(raw[..k])) == NewSide(raw)
  {
    var body, end := raw[..k], raw[k..];
    assert body + end == raw;
    BodyIsBody(raw);
    PatchLinesSides(body);
    HeadersShowNone(end);
    SidesAppend(body, end);
    assert OldSide(body) + [] == OldSide(body) && NewSide(body) + [] == NewSide(body);
  }

  lemma SideStep(e: Entry, rest: seq<Row>, prev: Lines, curr: Lines)
    ensures
      var raws := RawsOf([RowOf(e, prev, curr)] + rest);
      && OldSide(raws) == (if e.Added? then [] else [RowOf(e, prev, curr).content]) + OldSide(RawsOf(rest))
      && NewSide(raws) == EntryText(e, curr) + NewSide(RawsOf(rest))
  {
    var row := RowOf(e, prev, curr);
    var rows := [row] + rest;
    assert rows[0] == row && rows[1..] == rest;
    SideCons(AsRaw(row), RawsOf(rest), true);
    SideCons(AsRaw(row), RawsOf(rest), false);
  }

  lemma FirstOld(e: Entry, p: nat, c: nat, p': nat, prev: Lines, curr: Lines)
    requires Fits(e, p, c, prev, curr) && PrevNext(e, p) <= p' <= |prev|
    ensures prev[p..p'] == (if e.Added? then [] else [RowOf(e, prev, curr).content]) + prev[PrevNext(e, p)..p']
  {
    JoinSlices(prev, p, PrevNext(e, p), p');
  }

  /** The rows of a hunk show the lines it replaces and the lines it leaves. */
  lemma {:induction false} HunkSides(hunk: seq<Entry>, p: nat, c: nat, p': nat, prev: Lines, curr: Lines)
    requires Steps(hunk, p, c, prev, curr) && p' == p + |PrevNumbers(hunk)| <= |prev|
    ensures OldSide(RawsOf(RowsOf(hunk, prev, curr))) == prev[p..p']
    ensures NewSide(RawsOf(RowsOf(hunk, prev, curr))) == NewText(hunk, curr)
  {
    if hunk != [] {
      var next := PrevNext(hunk[0], p);
      NumbersCons(hunk, p, c);
      HunkSides(hunk[1..], next, CurrNext(hunk[0], c), p', prev, curr);
      SideStep(hunk[0], RowsOf(hunk[1..], prev, curr), prev, curr);
      FirstOld(hunk[0], p, c, p', prev, curr);
    }
  }

  /** If the body that is read replaces the right lines by the right lines, every row was recoverable. */
  lemma WorkingBodyIsRecoverable(rows: seq<Row>, raw: seq<RawLine>, k: nat, b: Applied, file: Lines, at: nat)
    requires BodyRows(rows) && raw == ReadRows(rows) && k == BodyLength(raw) && AllHeaders(raw[k..]) && at <= |file|
    requires ApplyBody(PatchLines(raw[..k]), file, at) == Some(b)
    requires b.next <= |file| && at <= b.next
    requires OldSide(RawsOf(rows)) == file[at..b.next] && NewSide(RawsOf(rows)) == b.output
    ensures RowsRecoverable(rows)
  {
    BodyMeans(PatchLines(raw[..k]), file, at, b);
    BodySides(raw, k);
    SidesReadIffRecoverable(rows);
  }

  /** What a patch that applies says about its first hunk. */
  lemma FirstHunkApplied(h: PatchHunk, rest: seq<PatchHunk>, file: Lines, at: nat, out: nat, start: nat, out': nat)
    returns (b: Applied, after: Lines)
    requires start <= |file| && HeaderFits(h, at, out, start) && out' == out + (start - at) + h.newCount
    requires ApplyPatch([h] + rest, file, at, out).Some?
    ensures ApplyBody(h.body, file, start) == Some(b) && b.next == start + h.oldCount && |b.output| == h.newCount
    ensures b.next <= |file| && ApplyPatch(rest, file, b.next, out') == Some(after)
    ensures ApplyPatch([h] + rest, file, at, out) == Some(file[at..start] + b.output + after)
  {
    var hunks := [h] + rest;
    assert hunks[0] == h && hunks[1..] == rest;
    b := ApplyBody(h.body, file, start).value;
    after := ApplyPatch(rest, file, b.next, out').value;
  }

  lemma ThreeParts(a: Lines, b: Lines, c: Lines, a': Lines, b': Lines, c': Lines)
    requires a + b + c == a' + b' + c' && |a| == |a'| && |b| == |b'|
    ensures a == a' && b == b' && c == c'
  {
    EqualParts(a + b, c, a' + b', c');
    EqualParts(a, b, a', b');
  }

  /** A hunk that is read, after the context before it. */
  ghost predicate Placed(piece: Piece, p: nat, c: nat, q: nat, d: nat, p': nat, c': nat, prev: Lines, curr: Lines) {
    && AllContext(piece.gap) && piece.hunk != [] && (piece.gap == [] ==> p == 0 && c == 0)
    && q == p + |piece.gap| && d == c + |piece.gap|
    && p' == q + |PrevNumbers(piece.hunk)| <= |prev| && c' == d + |CurrNumbers(piece.hunk)|
    && Steps(piece.gap, p, c, prev, curr) && Steps(piece.hunk, q, d, prev, curr)
  }

  lemma NotAnchoredRefused(piece: Piece, h: PatchHunk, rest: seq<PatchHunk>, p: nat, c: nat, q: nat, d: nat,
                           p': nat, c': nat, prev: Lines, curr: Lines)
    requires Placed(piece, p, c, q, d, p', c', prev, curr) && !Anchored(piece)
    requires h == HunkRead(piece.hunk, prev, curr)
    ensures ApplyPatch([h] + rest, prev, p, c) == None
  {
    HeaderNumbers(piece.hunk, q, d, prev, curr);
    SomeNumbers(piece.hunk);
    HunkRefused(h, rest, prev, p, c);
  }

  lemma AnchoredFits(piece: Piece, h: PatchHunk, p: nat, c: nat, q: nat, d: nat, p': nat, c': nat,
                     prev: Lines, curr: Lines)
    requires Placed(piece, p, c, q, d, p', c', prev, curr) && Anchored(piece)
    requires h == HunkRead(piece.hunk, prev, curr)
    ensures HeaderFits(h, p, c, q) && h.oldCount == p' - q && h.newCount == c' - d
  {
    HeaderNumbers(piece.hunk, q, d, prev, curr);
  }

  lemma HunkRowsRecoverable(hunk: seq<Entry>, b: Applied, q: nat, d: nat, p': nat, prev: Lines, curr: Lines)
    requires Steps(hunk, q, d, prev, curr) && p' == q + |PrevNumbers(hunk)| <= |prev|
    requires LostOnlyAtEnd(ReadRows(RowsOf(hunk, prev, curr)))
    requires ApplyBody(HunkRead(hunk, prev, curr).body, prev, q) == Some(b)
    requires b.next == p' && b.output == NewText(hunk, curr)
    ensures RowsRecoverable(RowsOf(hunk, prev, curr))
  {
    var rows := RowsOf(hunk, prev, curr);
    var raw := ReadRows(rows);
    HunkSides(hunk, q, d, p', prev, curr);
    BodyItemsRows(hunk, prev, curr);
    WorkingBodyIsRecoverable(rows, raw, BodyLength(raw), b, prev, q);
  }

  lemma FirstPieceWorks(piece: Piece, h: PatchHunk, rest: seq<PatchHunk>, after: Lines, p: nat, c: nat, q: nat, d: nat,
                        p': nat, c': nat, prev: Lines, curr: Lines)
    requires Placed(piece, p, c, q, d, p', c', prev, curr) && h == HunkRead(piece.hunk, prev, curr)
    requires LostOnlyAtEnd(ReadRows(RowsOf(piece.hunk, prev, curr)))
    requires ApplyPatch([h] + rest, prev, p, c)
          == Some(NewText(piece.gap, curr) + NewText(piece.hunk, curr) + after)
    ensures Anchored(piece) && RowsRecoverable(RowsOf(piece.hunk, prev, curr))
    ensures ApplyPatch(rest, prev, p', c') == Some(after)
  {
    if !Anchored(piece) {
      NotAnchoredRefused(piece, h, rest, p, c, q, d, p', c', prev, curr);
    } else {
      AnchoredFits(piece, h, p, c, q, d, p', c', prev, curr);
      ContextCopies(piece.gap, p, c, prev, curr);
      NewTextCount(piece.hunk, curr);
      var b, r := FirstHunkApplied(h, rest, prev, p, c, q, c');
      ThreeParts(prev[p..q], b.output, r, NewText(piece.gap, curr), NewText(piece.hunk, curr), after);
      HunkRowsRecoverable(piece.hunk, b, q, d, p', prev, curr);
    }
  }

  lemma PiecePlaced(piece: Piece, rest: seq<Entry>, p: nat, c: nat, q: nat, d: nat, p': nat, c': nat,
                    prev: Lines, curr: Lines)
    requires AllContext(piece.gap) && piece.hunk != [] && (piece.gap == [] ==> p == 0 && c == 0)
    requires Completes(piece.gap + (piece.hunk + rest), p, c, prev, curr) && p <= |prev| && c <= |curr|
    requires q == p + |piece.gap| && d == c + |piece.gap|
    requires p' == q + |PrevNumbers(piece.hunk)| && c' == d + |CurrNumbers(piece.hunk)|
    ensures Placed(piece, p, c, q, d, p', c', prev, curr) && Completes(rest, p', c', prev, curr) && c' <= |curr|
  {
    SplitSteps(piece.gap, piece.hunk, rest, p, c, prev, curr);
  }

  lemma {:induction false} WorkingPatchIsRecoverable(pieces: seq<Piece>, tail: seq<Entry>, first: bool, p: nat, c: nat,
                                                     prev: Lines, curr: Lines)
    requires Shaped(pieces, first) && AllContext(tail) && AllLostAtEnd(pieces, prev, curr)
    requires Completes(Script(pieces, tail), p, c, prev, curr) && p <= |prev| && c <= |curr|
    requires first ==> p == 0 && c == 0
    requires ApplyPatch(PiecesRead(pieces, prev, curr), prev, p, c) == Some(NewText(Script(pieces, tail), curr))
    ensures AllAnchored(pieces) && PiecesRecoverable(pieces, prev, curr)
  {
    if pieces != [] {
      var piece, script := pieces[0], Script(pieces[1..], tail);
      var q, d := p + |piece.gap|, c + |piece.gap|;
      var p', c' := q + |PrevNumbers(piece.hunk)|, d + |CurrNumbers(piece.hunk)|;
      PiecePlaced(piece, script, p, c, q, d, p', c', prev, curr);
      ScriptText(pieces, tail, curr);
      FirstPieceWorks(piece, HunkRead(piece.hunk, prev, curr), PiecesRead(pieces[1..], prev, curr),
                      NewText(script, curr), p, c, q, d, p', c', prev, curr);
      WorkingPatchIsRecoverable(pieces[1..], tail, false, p', c', prev, curr);
    }
  }

  // ----- the theorem ------------------------------------------------------------------------------------

  /** The text is read as a patch that turns the previous file into the current one. */
  predicate ReadsAsPatch(raw: seq<RawLine>, prev: Lines, curr: Lines) {
    ReadPatch(raw).Some? && ApplyPatch(ReadPatch(raw).value, prev, 0, 0) == Some(curr)
  }

  lemma {:induction false} HeadersBefore(head: seq<RawLine>, raw: seq<RawLine>)
    requires AllHeaders(head)
    ensures ReadPatch(head + raw) == ReadPatch(raw)
  {
    if head == [] {
      assert head + raw == raw;
    } else {
      assert (head + raw)[0] == head[0] && (head + raw)[1..] == head[1..] + raw;
      HeadersBefore(head[1..], raw);
    }
  }

  lemma PathIsHeaders(path: string)
    requires '\n' !in path
    ensures AllHeaders(HeaderRead(path))
  {
    OneLinePathRead(path);
    HeaderTextRead('-', path);
    HeaderTextRead('+', path);
    assert ['-', '-', '-', ' '] == "--- " && ['+', '+', '+', ' '] == "+++ ";
    var a, b := ParseLine(StripCr("--- " + path)), ParseLine(StripCr("+++ " + path));
    assert [a, b][1..] == [b] && [b][1..] == [];
  }

  lemma HunkTextRead(es: seq<Entry>, ranges: seq<Range>, path: string, prev: Lines, curr: Lines)
    requires NoNewlines(prev) && NoNewlines(curr) && Follow(ranges, 0, |es|)
    ensures V.ParseAll(LinesOf(PathLines(path) + HunksText(es, ranges, prev, curr)))
         == HeaderRead(path) + PieceRaws(Pieces(es, ranges, 0), prev, curr)
  {
    var items := HunkItems(es, ranges, prev, curr);
    HunkItemsText(es, ranges, prev, curr);
    HunkItemsPrintable(es, ranges, prev, curr);
    PrintableLines(items);
    PathLinesEnd(path);
    LinesOfAppend(PathLines(path), ItemLines(items));
    LinesOfUnlines(ItemLines(items));
    ParseAllAppend(LinesOf(PathLines(path)), LinesOf(ItemsText(items)));
    HunkItemsRead(es, ranges, 0, prev, curr);
  }

  lemma ContextText(report: Report, prev: Lines, curr: Lines, path: string, ctx: nat)
    requires ContextOutput(report, prev, curr, path, ctx).Changed?
    ensures
      var es := Walk(AllChanges(report.chunks), 0, 0, |prev|, |curr|);
      ReadRendering(ContextOutput(report, prev, curr, path, ctx).render).1
      == V.ParseAll(LinesOf(PathLines(path) + HunksText(es, RangesOf(es, ctx), prev, curr)))
  {
    var es := Walk(AllChanges(report.chunks), 0, 0, |prev|, |curr|);
    RenderingRead(V.Context, PathLines(path), HunksText(es, RangesOf(es, ctx), prev, curr));
  }

  /** The lines of a context rendering: the path's headers, then the hunks. */
  lemma ContextLines(report: Report, prev: Lines, curr: Lines, path: string, ctx: nat)
    requires NoNewlines(prev) && NoNewlines(curr) && ContextOutput(report, prev, curr, path, ctx).Changed?
    ensures
      var es := Walk(AllChanges(report.chunks), 0, 0, |prev|, |curr|);
      var (_, raw) := ReadRendering(ContextOutput(report, prev, curr, path, ctx).render);
      && Follow(RangesOf(es, ctx), 0, |es|)
      && raw == HeaderRead(path) + PieceRaws(Pieces(es, RangesOf(es, ctx), 0), prev, curr)
  {
    var es := Walk(AllChanges(report.chunks), 0, 0, |prev|, |curr|);
    CutAtRanges(es, ctx);
    ContextText(report, prev, curr, path, ctx);
    HunkTextRead(es, RangesOf(es, ctx), path, prev, curr);
  }

  lemma PiecesReadIff(es: seq<Entry>, ctx: nat, prev: Lines, curr: Lines)
    requires IsEditScript(es, prev, curr) && Follow(RangesOf(es, ctx), 0, |es|)
    ensures
      var pieces := Pieces(es, RangesOf(es, ctx), 0);
      ReadsAsPatch(PieceRaws(pieces, prev, curr), prev, curr)
      ==> HunksAnchored(es, ctx) && PiecesRecoverable(pieces, prev, curr)
  {
    var ranges := RangesOf(es, ctx);
    var pieces, tail := Pieces(es, ranges, 0), TailOf(es, ranges, 0);
    CutAtRanges(es, ctx);
    AnchoredIff(es, ranges, 0);
    EditScriptIffCompletes(es, prev, curr);
    PieceRawsRead(pieces, prev, curr);
    NewTextIsCurrent(es, 0, 0, prev, curr);
    assert curr[0..] == curr;
    if ReadsAsPatch(PieceRaws(pieces, prev, curr), prev, curr) {
      WorkingPatchIsRecoverable(pieces, tail, true, 0, 0, prev, curr);
    }
  }

  /** The text of a context diff of any two texts, with any path on one line, is read as a patch from the
      previous to the current one if and only if every hunk is anchored and every row is recoverable. */
  lemma ContextTextIsPatchIff(report: Report, previous: string, current: string, path: string, ctx: nat)
    requires ContextOutput(report, LinesOf(previous), LinesOf(current), path, ctx).Changed?
    requires Faithful(AllChanges(report.chunks), LinesOf(previous), LinesOf(current)) && '\n' !in path
    ensures
      var prev, curr := LinesOf(previous), LinesOf(current);
      var (_, raw) := ReadRendering(ContextOutput(report, prev, curr, path, ctx).render);
      ReadsAsPatch(raw, prev, curr)
      <==> && HunksAnchored(Walk(AllChanges(report.chunks), 0, 0, |prev|, |curr|), ctx)
           && AllRecoverable(ContextRows(AllChanges(report.chunks), prev, curr, ctx))
  {
    LinesHaveNoNewlines(previous);
    LinesHaveNoNewlines(current);
    TextIsPatchIff(report, LinesOf(previous), LinesOf(current), path, ctx);
  }

  lemma TextIsPatchIff(report: Report, prev: Lines, curr: Lines, path: string, ctx: nat)
    requires NoNewlines(prev) && NoNewlines(curr) && ContextOutput(report, prev, curr, path, ctx).Changed?
    requires Faithful(AllChanges(report.chunks), prev, curr) && '\n' !in path
    ensures
      var (_, raw) := ReadRendering(ContextOutput(report, prev, curr, path, ctx).render);
      ReadsAsPatch(raw, prev, curr)
      <==> && HunksAnchored(Walk(AllChanges(report.chunks), 0, 0, |prev|, |curr|), ctx)
           && AllRecoverable(ContextRows(AllChanges(report.chunks), prev, curr, ctx))
  {
    var changes := AllChanges(report.chunks);
    var es := Walk(changes, 0, 0, |prev|, |curr|);
    ContextLines(report, prev, curr, path, ctx);
    PathIsHeaders(path);
    HeadersBefore(HeaderRead(path), PieceRaws(Pieces(es, RangesOf(es, ctx), 0), prev, curr));
    HunksReadIff(changes, prev, curr, ctx);
  }

  lemma HunksReadIff(changes: seq<LineChange>, prev: Lines, curr: Lines, ctx: nat)
    requires NoNewlines(prev) && NoNewlines(curr) && Faithful(changes, prev, curr)
    requires Follow(RangesOf(Walk(changes, 0, 0, |prev|, |curr|), ctx), 0, |Walk(changes, 0, 0, |prev|, |curr|)|)
    ensures
      var es := Walk(changes, 0, 0, |prev|, |curr|);
      ReadsAsPatch(PieceRaws(Pieces(es, RangesOf(es, ctx), 0), prev, curr), prev, curr)
      <==> HunksAnchored(es, ctx) && AllRecoverable(ContextRows(changes, prev, curr, ctx))
  {
    var es := Walk(changes, 0, 0, |prev|, |curr|);
    var ranges := RangesOf(es, ctx);
    var items := HunkItems(es, ranges, prev, curr);
    HunkItemsRead(es, ranges, 0, prev, curr);
    FaithfulInRange(changes, 0, 0, prev, curr);
    EditScriptIffFaithful(changes, prev, curr);
    PiecesReadIff(es, ctx, prev, curr);
    if HunksAnchored(es, ctx) && AllRecoverable(items) {
      HunkItemsPrintable(es, ranges, prev, curr);
      ReadBack(items);
      HunksRead(es, ranges, prev, curr);
      ContextDiffIsPatch(changes, prev, curr, ctx);
    }
  }
}
