/** Hunks as `render_context` prints them, and what it means to apply them as a patch. */
module Patches {
  import opened Options
  import opened EditScripts
  import opened DiffText

  // ----- hunks -----------------------------------------------------------------------------------

  /** A hunk with its header numbers (1-based starts) and body. */
  datatype Hunk = Hunk(prevStart: nat, prevCount: nat, currStart: nat, currCount: nat, rows: seq<Row>)

  function RowOf(e: Entry, prev: Lines, curr: Lines): Row {
    match e
    case Context(_, c) => Row(ContextLine, c + 1, LineAt(curr, c))
    case Removed(p) => Row(RemovedLine, p + 1, LineAt(prev, p))
    case Added(c) => Row(AddedLine, c + 1, LineAt(curr, c))
  }

  function RowsOf(es: seq<Entry>, prev: Lines, curr: Lines): (rows: seq<Row>)
    ensures |rows| == |es| && forall i :: 0 <= i < |es| ==> rows[i] == RowOf(es[i], prev, curr)
  {
    if es == [] then [] else [RowOf(es[0], prev, curr)] + RowsOf(es[1..], prev, curr)
  }

  /** A header start: the first line number of that side, or line 0 when there is none, made 1-based. */
  function HeaderStart(numbers: seq<nat>): nat {
    (if numbers == [] then 0 else numbers[0]) + 1
  }

  function HunkOf(es: seq<Entry>, prev: Lines, curr: Lines): Hunk
  {
    var p, c := PrevNumbers(es), CurrNumbers(es);
    Hunk(HeaderStart(p), |p|, HeaderStart(c), |c|, RowsOf(es, prev, curr))
  }

  // ----- applying a patch --------------------------------------------------------------------------

  datatype PatchLine = Keep(text: string) | Delete(text: string) | Insert(text: string)

  datatype PatchHunk = PatchHunk(oldStart: nat, oldCount: nat, newStart: nat, newCount: nat, body: seq<PatchLine>)

  datatype Applied = Applied(output: Lines, next: nat)

  /** Follow one body line from line `at`: kept and deleted text must be what the file holds. */
  function ApplyLine(l: PatchLine, file: Lines, at: nat): Option<Applied> {
    match l
    case Insert(t) => Some(Applied([t], at))
    case Keep(t) => if at < |file| && file[at] == t then Some(Applied([t], at + 1)) else None
    case Delete(t) => if at < |file| && file[at] == t then Some(Applied([], at + 1)) else None
  }

  function Then(first: Option<Applied>, rest: Option<Applied>): Option<Applied> {
    if first.None? || rest.None? then None
    else Some(Applied(first.value.output + rest.value.output, rest.value.next))
  }

  function ApplyBody(body: seq<PatchLine>, file: Lines, at: nat): (r: Option<Applied>)
    ensures r.Some? ==> at <= r.value.next && (at <= |file| ==> r.value.next <= |file|)
  {
    if body == [] then Some(Applied([], at))
    else
      var first := ApplyLine(body[0], file, at);
      if first.None? then None else Then(first, ApplyBody(body[1..], file, first.value.next))
  }

  /** A strict patch program: hunks in order, every header number checked against the position in
      the old file (`at`) and in the new file (`out`). */
  function ApplyPatch(hunks: seq<PatchHunk>, file: Lines, at: nat, out: nat): Option<Lines>
    requires at <= |file|
  {
    if hunks == [] then Some(file[at..])
    else
      var h := hunks[0];
      if h.oldStart <= at || |file| + 1 < h.oldStart || out + (h.oldStart - at) != h.newStart then None
      else
        var start := h.oldStart - 1;
        var b := ApplyBody(h.body, file, start);
        if b.None? || b.value.next - start != h.oldCount || |b.value.output| != h.newCount then None
        else
          var rest := ApplyPatch(hunks[1..], file, b.value.next, out + (start - at) + |b.value.output|);
          if rest.None? then None else Some(file[at..start] + b.value.output + rest.value)
  }

  function PatchLineOf(row: Row): PatchLine {
    match row.kind
    case AddedLine => Insert(row.content)
    case RemovedLine => Delete(row.content)
    case _ => Keep(row.content)
  }

  function BodyOf(rows: seq<Row>): (b: seq<PatchLine>)
    ensures |b| == |rows| && forall i :: 0 <= i < |b| ==> b[i] == PatchLineOf(rows[i])
  {
    if rows == [] then [] else [PatchLineOf(rows[0])] + BodyOf(rows[1..])
  }

  function PatchOf(h: Hunk): PatchHunk {
    PatchHunk(h.prevStart, h.prevCount, h.currStart, h.currCount, BodyOf(h.rows))
  }

  function PatchesOf(hs: seq<Hunk>): (ps: seq<PatchHunk>)
    ensures |ps| == |hs| && forall i :: 0 <= i < |ps| ==> ps[i] == PatchOf(hs[i])
  {
    if hs == [] then [] else [PatchOf(hs[0])] + PatchesOf(hs[1..])
  }

  function ReverseLine(l: PatchLine): PatchLine {
    match l
    case Keep(t) => Keep(t)
    case Delete(t) => Insert(t)
    case Insert(t) => Delete(t)
  }

  function ReverseBody(b: seq<PatchLine>): (r: seq<PatchLine>)
    ensures |r| == |b| && forall i :: 0 <= i < |b| ==> r[i] == ReverseLine(b[i])
  {
    if b == [] then [] else [ReverseLine(b[0])] + ReverseBody(b[1..])
  }

  /** `patch -R`: old and new trade places. */
  function ReversePatch(h: PatchHunk): PatchHunk {
    PatchHunk(h.newStart, h.newCount, h.oldStart, h.oldCount, ReverseBody(h.body))
  }

  function ReverseAll(hs: seq<PatchHunk>): (r: seq<PatchHunk>)
    ensures |r| == |hs| && forall i :: 0 <= i < |hs| ==> r[i] == ReversePatch(hs[i])
  {
    if hs == [] then [] else [ReversePatch(hs[0])] + ReverseAll(hs[1..])
  }

  // ----- the hunks of an edit script apply ---------------------------------------------------------

  lemma ApplyBodyCons(l: PatchLine, rest: seq<PatchLine>, file: Lines, at: nat)
    requires ApplyLine(l, file, at).Some?
    ensures ApplyBody([l] + rest, file, at)
         == Then(ApplyLine(l, file, at), ApplyBody(rest, file, ApplyLine(l, file, at).value.next))
  {
    var body := [l] + rest;
    assert body[0] == l && body[1..] == rest;
  }

  /** The patch body of a list of entries. */
  function PatchBody(es: seq<Entry>, prev: Lines, curr: Lines): seq<PatchLine>
  {
    if es == [] then []
    else [PatchLineOf(RowOf(es[0], prev, curr))] + PatchBody(es[1..], prev, curr)
  }

  lemma {:induction false} BodyOfRows(es: seq<Entry>, prev: Lines, curr: Lines)
    ensures BodyOf(RowsOf(es, prev, curr)) == PatchBody(es, prev, curr)
  {
    if es != [] {
      BodyOfRows(es[1..], prev, curr);
      var rows := RowsOf(es, prev, curr);
      assert rows[1..] == RowsOf(es[1..], prev, curr);
    }
  }

  /** The text of the lines an entry leaves in the current file. */
  function EntryText(e: Entry, curr: Lines): Lines {
    if e.Removed? then [] else [LineAt(curr, e.currLn)]
  }

  function NewText(es: seq<Entry>, curr: Lines): Lines {
    if es == [] then [] else EntryText(es[0], curr) + NewText(es[1..], curr)
  }

  lemma {:induction false} NewTextAppend(a: seq<Entry>, b: seq<Entry>, curr: Lines)
    ensures NewText(a + b, curr) == NewText(a, curr) + NewText(b, curr)
  {
    if a == [] {
      assert a + b == b;
    } else {
      assert (a + b)[0] == a[0] && (a + b)[1..] == a[1..] + b;
      NewTextAppend(a[1..], b, curr);
    }
  }

  lemma {:induction false} NewTextCount(es: seq<Entry>, curr: Lines)
    ensures |NewText(es, curr)| == |CurrNumbers(es)|
  {
    if es != [] {
      NewTextCount(es[1..], curr);
    }
  }

  /** Steps that reach the end of the current file leave exactly its remaining lines. */
  lemma {:induction false} NewTextIsCurrent(es: seq<Entry>, p: nat, c: nat, prev: Lines, curr: Lines)
    requires Steps(es, p, c, prev, curr) && c + |CurrNumbers(es)| == |curr|
    ensures NewText(es, curr) == curr[c..]
  {
    if es != [] {
      NumbersCons(es, p, c);
      NewTextIsCurrent(es[1..], PrevNext(es[0], p), CurrNext(es[0], c), prev, curr);
      EntryTextThenRest(es[0], p, c, prev, curr);
    }
  }

  lemma EntryTextThenRest(e: Entry, p: nat, c: nat, prev: Lines, curr: Lines)
    requires Fits(e, p, c, prev, curr) && c <= |curr|
    ensures CurrNext(e, c) <= |curr|
    ensures EntryText(e, curr) + curr[CurrNext(e, c)..] == curr[c..]
  {
  }

  /** Following the body of a list of steps consumes its previous lines and emits its current lines. */
  lemma {:induction false} BodyApplies(es: seq<Entry>, p: nat, c: nat, prev: Lines, curr: Lines)
    requires Steps(es, p, c, prev, curr)
    ensures ApplyBody(PatchBody(es, prev, curr), prev, p) == Some(Applied(NewText(es, curr), p + |PrevNumbers(es)|))
  {
    if es != [] {
      var e, rest := es[0], es[1..];
      BodyApplies(rest, PrevNext(e, p), CurrNext(e, c), prev, curr);
      var l := PatchLineOf(RowOf(e, prev, curr));
      assert ApplyLine(l, prev, p) == Some(Applied(EntryText(e, curr), PrevNext(e, p)));
      ApplyBodyCons(l, PatchBody(rest, prev, curr), prev, p);
    }
  }

  /** Between hunks the old file already holds the new text. */
  lemma {:induction false} ContextCopies(es: seq<Entry>, p: nat, c: nat, prev: Lines, curr: Lines)
    requires AllContext(es) && Steps(es, p, c, prev, curr)
    requires p <= |prev|
    ensures |PrevNumbers(es)| == |CurrNumbers(es)| == |es|
    ensures p + |es| <= |prev|
    ensures prev[p..p + |es|] == NewText(es, curr)
  {
    if es != [] {
      ContextCopies(es[1..], p + 1, c + 1, prev, curr);
      assert EntryText(es[0], curr) == [prev[p]];
      assert prev[p..p + |es|] == [prev[p]] + prev[p + 1..p + |es|];
    }
  }

  // ----- when the whole patch applies ----------------------------------------------------------------

  /** A hunk and the context between it and the hunk before. */
  datatype Piece = Piece(gap: seq<Entry>, hunk: seq<Entry>)

  function Script(pieces: seq<Piece>, tail: seq<Entry>): seq<Entry> {
    if pieces == [] then tail else pieces[0].gap + (pieces[0].hunk + Script(pieces[1..], tail))
  }

  /** Gaps are context, and only the first hunk of the file may have none before it. */
  predicate Shaped(pieces: seq<Piece>, first: bool) {
    pieces == [] ||
    (AllContext(pieces[0].gap) && pieces[0].hunk != [] && (first || pieces[0].gap != []) && Shaped(pieces[1..], false))
  }

  /** A hunk is anchored when it starts at the first entry or shows lines of both files.  Only then
      do its header numbers name its place. */
  predicate Anchored(piece: Piece) {
    piece.gap == [] || (PrevNumbers(piece.hunk) != [] && CurrNumbers(piece.hunk) != [])
  }

  predicate AllAnchored(pieces: seq<Piece>) {
    pieces == [] || (Anchored(pieces[0]) && AllAnchored(pieces[1..]))
  }

  function HunksOf(pieces: seq<Piece>, prev: Lines, curr: Lines): (hs: seq<Hunk>)
    ensures |hs| == |pieces|
  {
    if pieces == [] then [] else [HunkOf(pieces[0].hunk, prev, curr)] + HunksOf(pieces[1..], prev, curr)
  }

  lemma HeaderNumbers(es: seq<Entry>, p: nat, c: nat, prev: Lines, curr: Lines)
    requires Steps(es, p, c, prev, curr)
    ensures HeaderStart(PrevNumbers(es)) == if PrevNumbers(es) == [] then 1 else p + 1
    ensures HeaderStart(CurrNumbers(es)) == if CurrNumbers(es) == [] then 1 else c + 1
  {
    StepsPrevNumbers(es, p, c, prev, curr);
    StepsCurrNumbers(es, p, c, prev, curr);
  }

  predicate HeaderFits(h: PatchHunk, at: nat, out: nat, start: nat) {
    at <= start && h.oldStart == start + 1 && h.newStart == out + (start - at) + 1
  }

  /** One hunk whose header fits and whose body applies. */
  lemma HunkApplies(h: PatchHunk, rest: seq<PatchHunk>, file: Lines, at: nat, out: nat, start: nat, b: Applied,
                    out': nat)
    requires start <= |file| && HeaderFits(h, at, out, start) && out' == out + (start - at) + |b.output|
    requires ApplyBody(h.body, file, start) == Some(b)
    requires b.next == start + h.oldCount && |b.output| == h.newCount
    ensures b.next <= |file|
    ensures
      var r := ApplyPatch(rest, file, b.next, out');
      ApplyPatch([h] + rest, file, at, out)
      == if r.None? then None else Some(file[at..start] + b.output + r.value)
  {
    var hunks := [h] + rest;
    assert hunks[0] == h && hunks[1..] == rest;
  }

  lemma HunkRefused(h: PatchHunk, rest: seq<PatchHunk>, file: Lines, at: nat, out: nat)
    requires at <= |file|
    requires h.oldStart <= at || out + (h.oldStart - at) != h.newStart
    ensures ApplyPatch([h] + rest, file, at, out) == None
  {
    var hunks := [h] + rest;
    assert hunks[0] == h;
  }

  /** The patch hunk of the entries b, as printed and stripped of its display numbers. */
  function PatchHunkOf(b: seq<Entry>, prev: Lines, curr: Lines): PatchHunk {
    PatchOf(HunkOf(b, prev, curr))
  }

  /** What the header and the body of a hunk say about the entries b at lines p and c. */
  ghost predicate Describes(h: PatchHunk, b: seq<Entry>, p: nat, c: nat, prev: Lines, curr: Lines) {
    && h.oldStart == (if h.oldCount == 0 then 1 else p + 1)
    && h.newStart == (if h.newCount == 0 then 1 else c + 1)
    && h.oldCount == |PrevNumbers(b)| && h.newCount == |CurrNumbers(b)| == |NewText(b, curr)|
    && ApplyBody(h.body, prev, p) == Some(Applied(NewText(b, curr), p + |PrevNumbers(b)|))
  }

  lemma PatchHunkDescribes(b: seq<Entry>, p: nat, c: nat, prev: Lines, curr: Lines)
    requires Steps(b, p, c, prev, curr)
    ensures Describes(PatchHunkOf(b, prev, curr), b, p, c, prev, curr)
  {
    HeaderNumbers(b, p, c, prev, curr);
    BodyApplies(b, p, c, prev, curr);
    BodyOfRows(b, prev, curr);
    NewTextCount(b, curr);
  }

  lemma SomeNumbers(es: seq<Entry>)
    requires es != []
    ensures PrevNumbers(es) != [] || CurrNumbers(es) != []
  {
  }

  /** An anchored hunk applies after the context before it. */
  lemma HunkAccepted(h: PatchHunk, a: seq<Entry>, b: seq<Entry>, rest: seq<PatchHunk>, p: nat, c: nat, q: nat, d: nat,
                     p': nat, c': nat, prev: Lines, curr: Lines)
    requires AllContext(a) && Steps(a, p, c, prev, curr) && Describes(h, b, q, d, prev, curr)
    requires q == p + |a| <= |prev| && d == c + |a|
    requires (q == 0 && d == 0) || (h.oldCount > 0 && h.newCount > 0)
    requires p' == q + |PrevNumbers(b)| <= |prev| && c' == d + |CurrNumbers(b)|
    ensures
      var r := ApplyPatch(rest, prev, p', c');
      ApplyPatch([h] + rest, prev, p, c)
      == if r.None? then None else Some(NewText(a, curr) + NewText(b, curr) + r.value)
  {
    ContextCopies(a, p, c, prev, curr);
    HunkApplies(h, rest, prev, p, c, q, Applied(NewText(b, curr), p'), c');
  }

  /** A hunk that shows only one of the files, away from their start, is refused. */
  lemma HunkNotAnchored(h: PatchHunk, n: nat, b: seq<Entry>, rest: seq<PatchHunk>, p: nat, c: nat,
                        prev: Lines, curr: Lines)
    requires n > 0 && b != [] && p <= |prev| && Describes(h, b, p + n, c + n, prev, curr)
    requires h.oldCount == 0 || h.newCount == 0
    ensures ApplyPatch([h] + rest, prev, p, c) == None
  {
    SomeNumbers(b);
    HunkRefused(h, rest, prev, p, c);
  }

  lemma SplitSteps(a: seq<Entry>, b: seq<Entry>, d: seq<Entry>, p: nat, c: nat, prev: Lines, curr: Lines)
    requires AllContext(a) && Completes(a + (b + d), p, c, prev, curr) && p <= |prev| && c <= |curr|
    ensures Steps(a, p, c, prev, curr) && Steps(b, p + |a|, c + |a|, prev, curr)
    ensures Completes(d, p + |a| + |PrevNumbers(b)|, c + |a| + |CurrNumbers(b)|, prev, curr)
    ensures p + |a| + |PrevNumbers(b)| <= |prev| && c + |a| + |CurrNumbers(b)| <= |curr|
  {
    ContextCounts(a);
    CompletesThree(a + (b + d), a, b, d, p, c, |a|, prev, curr);
    StepsBound(a, p, c, prev, curr);
    StepsBound(b, p + |a|, c + |a|, prev, curr);
  }

  /** One step of the theorem below. */
  lemma PieceIff(h: PatchHunk, piece: Piece, rest: seq<PatchHunk>, p: nat, c: nat, q: nat, d: nat, p': nat, c': nat,
                 prev: Lines, curr: Lines)
    requires AllContext(piece.gap) && piece.hunk != [] && (piece.gap == [] ==> p == 0 && c == 0)
    requires q == p + |piece.gap| <= |prev| && d == c + |piece.gap|
    requires Steps(piece.gap, p, c, prev, curr) && Describes(h, piece.hunk, q, d, prev, curr)
    requires p' == q + |PrevNumbers(piece.hunk)| <= |prev| && c' == d + |CurrNumbers(piece.hunk)|
    ensures
      var after := ApplyPatch(rest, prev, p', c');
      ApplyPatch([h] + rest, prev, p, c)
      == if Anchored(piece) && after.Some?
         then Some(NewText(piece.gap, curr) + NewText(piece.hunk, curr) + after.value) else None
  {
    if Anchored(piece) {
      HunkAccepted(h, piece.gap, piece.hunk, rest, p, c, q, d, p', c', prev, curr);
    } else {
      HunkNotAnchored(h, |piece.gap|, piece.hunk, rest, p, c, prev, curr);
    }
  }

  /** The same for the hunk as it is printed. */
  lemma PrintedPieceIff(piece: Piece, rest: seq<PatchHunk>, p: nat, c: nat, q: nat, d: nat, p': nat, c': nat,
                        prev: Lines, curr: Lines)
    requires AllContext(piece.gap) && piece.hunk != [] && (piece.gap == [] ==> p == 0 && c == 0)
    requires q == p + |piece.gap| <= |prev| && d == c + |piece.gap|
    requires Steps(piece.gap, p, c, prev, curr) && Steps(piece.hunk, q, d, prev, curr)
    requires p' == q + |PrevNumbers(piece.hunk)| <= |prev| && c' == d + |CurrNumbers(piece.hunk)|
    ensures
      var after := ApplyPatch(rest, prev, p', c');
      ApplyPatch([PatchHunkOf(piece.hunk, prev, curr)] + rest, prev, p, c)
      == if Anchored(piece) && after.Some?
         then Some(NewText(piece.gap, curr) + NewText(piece.hunk, curr) + after.value) else None
  {
    PatchHunkDescribes(piece.hunk, q, d, prev, curr);
    PieceIff(PatchHunkOf(piece.hunk, prev, curr), piece, rest, p, c, q, d, p', c', prev, curr);
  }

  lemma ScriptText(pieces: seq<Piece>, tail: seq<Entry>, curr: Lines)
    requires pieces != []
    ensures NewText(Script(pieces, tail), curr)
         == NewText(pieces[0].gap, curr) + NewText(pieces[0].hunk, curr) + NewText(Script(pieces[1..], tail), curr)
  {
    var rest := Script(pieces[1..], tail);
    NewTextAppend(pieces[0].gap, pieces[0].hunk + rest, curr);
    NewTextAppend(pieces[0].hunk, rest, curr);
  }

  /** The same patch, without going through the printed hunks. */
  function PiecePatches(pieces: seq<Piece>, prev: Lines, curr: Lines): seq<PatchHunk> {
    if pieces == [] then []
    else [PatchHunkOf(pieces[0].hunk, prev, curr)] + PiecePatches(pieces[1..], prev, curr)
  }

  lemma {:induction false} PiecePatchesArePatches(pieces: seq<Piece>, prev: Lines, curr: Lines)
    ensures PatchesOf(HunksOf(pieces, prev, curr)) == PiecePatches(pieces, prev, curr)
  {
    if pieces != [] {
      PiecePatchesArePatches(pieces[1..], prev, curr);
      PatchesCons(HunkOf(pieces[0].hunk, prev, curr), HunksOf(pieces[1..], prev, curr));
    }
  }

  /** The patch made of an edit script's hunks yields the script's new text if every hunk is
      anchored, and a strict patch program refuses it otherwise. */
  lemma {:induction false} PatchIff(pieces: seq<Piece>, tail: seq<Entry>, first: bool, p: nat, c: nat,
                                    prev: Lines, curr: Lines)
    requires Shaped(pieces, first) && AllContext(tail)
    requires Completes(Script(pieces, tail), p, c, prev, curr) && p <= |prev| && c <= |curr|
    requires first ==> p == 0 && c == 0
    ensures ApplyPatch(PiecePatches(pieces, prev, curr), prev, p, c)
         == if AllAnchored(pieces) then Some(NewText(Script(pieces, tail), curr)) else None
  {
    if pieces == [] {
      PatchTail(tail, p, c, prev, curr);
    } else {
      var a, b := pieces[0].gap, pieces[0].hunk;
      SplitSteps(a, b, Script(pieces[1..], tail), p, c, prev, curr);
      var p', c' := p + |a| + |PrevNumbers(b)|, c + |a| + |CurrNumbers(b)|;
      PatchIff(pieces[1..], tail, false, p', c', prev, curr);
      var rest := PiecePatches(pieces[1..], prev, curr);
      PrintedPieceIff(pieces[0], rest, p, c, p + |a|, c + |a|, p', c', prev, curr);
      ScriptText(pieces, tail, curr);
    }
  }

  lemma PatchTail(es: seq<Entry>, p: nat, c: nat, prev: Lines, curr: Lines)
    requires AllContext(es) && Completes(es, p, c, prev, curr) && p <= |prev|
    ensures prev[p..] == NewText(es, curr)
  {
    ContextCopies(es, p, c, prev, curr);
    assert prev[p..p + |es|] == prev[p..];
  }

  lemma PatchesCons(h: Hunk, hs: seq<Hunk>)
    ensures PatchesOf([h] + hs) == [PatchOf(h)] + PatchesOf(hs)
  {
    assert ([h] + hs)[0] == h && ([h] + hs)[1..] == hs;
  }

  lemma {:induction false} ContextCounts(es: seq<Entry>)
    requires AllContext(es)
    ensures |PrevNumbers(es)| == |CurrNumbers(es)| == |es|
  {
    if es != [] {
      ContextCounts(es[1..]);
    }
  }

  lemma {:induction false} StepsBound(es: seq<Entry>, p: nat, c: nat, prev: Lines, curr: Lines)
    requires Steps(es, p, c, prev, curr) && p <= |prev| && c <= |curr|
    ensures p + |PrevNumbers(es)| <= |prev| && c + |CurrNumbers(es)| <= |curr|
  {
    if es != [] {
      StepsBound(es[1..], PrevNext(es[0], p), CurrNext(es[0], c), prev, curr);
    }
  }
}
