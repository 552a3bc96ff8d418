/** The hunks of `render_context` as a patch: what they do to the previous file, and in reverse to
    the current file. */
module ContextHunks {
  import opened Options
  import opened EditScripts
  import opened HunkRanges
  import opened Patches

  /** The hunk ranges of an entry list. */
  function RangesOf(es: seq<Entry>, ctx: nat): seq<Range> {
    Merged(ChangePositions(es), ctx, |es|)
  }

  /** The entries of one hunk. */
  function Slice(es: seq<Entry>, r: Range): seq<Entry> {
    if r.start <= r.end <= |es| then es[r.start..r.end] else []
  }

  function RangeHunks(es: seq<Entry>, ranges: seq<Range>, prev: Lines, curr: Lines): (hs: seq<Hunk>)
    ensures |hs| == |ranges|
  {
    if ranges == [] then [] else [HunkOf(Slice(es, ranges[0]), prev, curr)] + RangeHunks(es, ranges[1..], prev, curr)
  }

  // ----- cutting the entry list at the ranges --------------------------------------------------

  /** The ranges follow one another from entry i on. */
  predicate Follow(ranges: seq<Range>, i: nat, len: nat) {
    ranges == [] || (i <= ranges[0].start < ranges[0].end <= len && Follow(ranges[1..], ranges[0].end, len))
  }

  function Pieces(es: seq<Entry>, ranges: seq<Range>, i: nat): seq<Piece>
    requires Follow(ranges, i, |es|)
  {
    if ranges == [] then []
    else
      var r := ranges[0];
      [Piece(es[i..r.start], es[r.start..r.end])] + Pieces(es, ranges[1..], r.end)
  }

  function TailOf(es: seq<Entry>, ranges: seq<Range>, i: nat): seq<Entry>
    requires i <= |es| && Follow(ranges, i, |es|)
  {
    if ranges == [] then es[i..] else TailOf(es, ranges[1..], ranges[0].end)
  }

  lemma {:induction false} PiecesMakeScript(es: seq<Entry>, ranges: seq<Range>, i: nat)
    requires i <= |es| && Follow(ranges, i, |es|)
    ensures Script(Pieces(es, ranges, i), TailOf(es, ranges, i)) == es[i..]
  {
    if ranges != [] {
      var r := ranges[0];
      PiecesMakeScript(es, ranges[1..], r.end);
      var pieces := Pieces(es, ranges, i);
      assert pieces[0] == Piece(es[i..r.start], es[r.start..r.end]);
      assert pieces[1..] == Pieces(es, ranges[1..], r.end);
      assert es[r.start..r.end] + es[r.end..] == es[r.start..];
      assert es[i..r.start] + es[r.start..] == es[i..];
    }
  }

  lemma {:induction false} PieceHunks(es: seq<Entry>, ranges: seq<Range>, i: nat, prev: Lines, curr: Lines)
    requires Follow(ranges, i, |es|)
    ensures HunksOf(Pieces(es, ranges, i), prev, curr) == RangeHunks(es, ranges, prev, curr)
  {
    if ranges != [] {
      var r := ranges[0];
      PieceHunks(es, ranges[1..], r.end, prev, curr);
      var pieces := Pieces(es, ranges, i);
      assert pieces[0] == Piece(es[i..r.start], es[r.start..r.end]);
      assert pieces[1..] == Pieces(es, ranges[1..], r.end);
    }
  }

  /** No change lies outside the ranges, from entry i on. */
  ghost predicate Covered(es: seq<Entry>, ranges: seq<Range>, i: nat) {
    forall j :: i <= j < |es| && !es[j].Context? ==> Shown(ranges, j)
  }

  lemma {:induction false} AllContextBetween(es: seq<Entry>, i: nat, j: nat)
    requires i <= j <= |es|
    requires forall k :: i <= k < j ==> es[k].Context?
    ensures AllContext(es[i..j])
    decreases j - i
  {
    if i < j {
      AllContextBetween(es, i + 1, j);
      assert es[i..j][1..] == es[i + 1..j];
    }
  }

  lemma ShownLater(ranges: seq<Range>, j: nat)
    requires ranges != [] && Shown(ranges, j) && ranges[0].end <= j
    ensures Shown(ranges[1..], j)
  {
    var k :| 0 <= k < |ranges| && ranges[k].start <= j < ranges[k].end;
    assert ranges[1..][k - 1].start <= j < ranges[1..][k - 1].end;
  }

  lemma {:induction false} SeparatedFollow(ranges: seq<Range>, i: nat, len: nat)
    requires Separated(ranges, len)
    requires ranges != [] ==> i <= ranges[0].start
    ensures Follow(ranges, i, len)
  {
    if ranges != [] {
      SeparatedFollow(ranges[1..], ranges[0].end, len);
    }
  }

  lemma BeforeFirst(es: seq<Entry>, ranges: seq<Range>, i: nat)
    requires Separated(ranges, |es|) && Covered(es, ranges, i) && ranges != [] && i <= ranges[0].start
    ensures AllContext(es[i..ranges[0].start])
  {
    assert forall k :: i <= k < ranges[0].start ==> !Shown(ranges, k);
    AllContextBetween(es, i, ranges[0].start);
  }

  lemma {:induction false} PiecesShaped(es: seq<Entry>, ranges: seq<Range>, i: nat)
    requires i <= |es| && Separated(ranges, |es|) && Covered(es, ranges, i) && Follow(ranges, i, |es|)
    requires ranges != [] && i > 0 ==> i < ranges[0].start
    ensures Shaped(Pieces(es, ranges, i), i == 0)
    ensures AllContext(TailOf(es, ranges, i))
  {
    if ranges == [] {
      AllContextBetween(es, i, |es|);
      assert es[i..|es|] == es[i..];
    } else {
      var r := ranges[0];
      BeforeFirst(es, ranges, i);
      forall j | r.end <= j < |es| && !es[j].Context? ensures Shown(ranges[1..], j) {
        ShownLater(ranges, j);
      }
      PiecesShaped(es, ranges[1..], r.end);
      var pieces := Pieces(es, ranges, i);
      assert pieces[0] == Piece(es[i..r.start], es[r.start..r.end]);
      assert pieces[1..] == Pieces(es, ranges[1..], r.end);
    }
  }

  // ----- which hunks are anchored ----------------------------------------------------------------

  /** A hunk that starts the entry list, or shows a line of each file. */
  predicate RangeAnchored(es: seq<Entry>, r: Range) {
    r.start == 0 || (PrevNumbers(Slice(es, r)) != [] && CurrNumbers(Slice(es, r)) != [])
  }

  /** Every hunk shows lines of both files, except one that starts the diff. */
  predicate HunksAnchored(es: seq<Entry>, ctx: nat) {
    var ranges := RangesOf(es, ctx);
    forall k :: 0 <= k < |ranges| ==> RangeAnchored(es, ranges[k])
  }

  lemma {:induction false} AnchoredIff(es: seq<Entry>, ranges: seq<Range>, i: nat)
    requires Follow(ranges, i, |es|) && Shaped(Pieces(es, ranges, i), i == 0)
    ensures AllAnchored(Pieces(es, ranges, i)) <==> forall k :: 0 <= k < |ranges| ==> RangeAnchored(es, ranges[k])
  {
    if ranges != [] {
      var r := ranges[0];
      var pieces := Pieces(es, ranges, i);
      assert pieces[0] == Piece(es[i..r.start], es[r.start..r.end]);
      assert pieces[1..] == Pieces(es, ranges[1..], r.end);
      AnchoredIff(es, ranges[1..], r.end);
      assert Anchored(pieces[0]) <==> RangeAnchored(es, r);
      assert forall k :: 0 < k < |ranges| ==> ranges[k] == ranges[1..][k - 1];
    }
  }

  /** With at least one context line, every hunk is anchored: a hunk that does not start the diff
      begins with a context entry. */
  lemma ContextAnchors(es: seq<Entry>, ctx: nat)
    requires ctx >= 1
    ensures HunksAnchored(es, ctx)
  {
    var ranges := RangesOf(es, ctx);
    HunksShowExactlyTheNeighbourhoods(es, ctx);
    forall k | 0 <= k < |ranges| ensures RangeAnchored(es, ranges[k]) {
      var r := ranges[k];
      if r.start > 0 {
        NotShownBefore(ranges, k, |es|);
        assert !NearChange(es, r.start - 1, ctx);
        assert es[r.start].Context?;
        assert Slice(es, r)[0] == es[r.start];
      }
    }
  }

  lemma NotShownBefore(ranges: seq<Range>, k: nat, len: nat)
    requires Separated(ranges, len) && k < |ranges| && ranges[k].start > 0
    ensures !Shown(ranges, ranges[k].start - 1)
  {
  }

  // ----- the reverse patch -------------------------------------------------------------------------

  /** The same entry read from the current file to the previous one. */
  function Flip(e: Entry): Entry {
    match e
    case Context(p, c) => Context(c, p)
    case Removed(p) => Added(p)
    case Added(c) => Removed(c)
  }

  function FlipAll(es: seq<Entry>): (r: seq<Entry>)
    ensures |r| == |es|
  {
    if es == [] then [] else [Flip(es[0])] + FlipAll(es[1..])
  }

  function FlipPieces(pieces: seq<Piece>): seq<Piece> {
    if pieces == [] then []
    else [Piece(FlipAll(pieces[0].gap), FlipAll(pieces[0].hunk))] + FlipPieces(pieces[1..])
  }

  lemma {:induction false} FlipNumbers(es: seq<Entry>)
    ensures PrevNumbers(FlipAll(es)) == CurrNumbers(es)
    ensures CurrNumbers(FlipAll(es)) == PrevNumbers(es)
  {
    if es != [] {
      FlipNumbers(es[1..]);
      assert FlipAll(es)[0] == Flip(es[0]) && FlipAll(es)[1..] == FlipAll(es[1..]);
    }
  }

  lemma {:induction false} FlipSteps(es: seq<Entry>, p: nat, c: nat, prev: Lines, curr: Lines)
    requires Steps(es, p, c, prev, curr)
    ensures Steps(FlipAll(es), c, p, curr, prev)
  {
    if es != [] {
      FlipSteps(es[1..], PrevNext(es[0], p), CurrNext(es[0], c), prev, curr);
      assert FlipAll(es)[0] == Flip(es[0]) && FlipAll(es)[1..] == FlipAll(es[1..]);
    }
  }

  lemma {:induction false} FlipAppend(a: seq<Entry>, b: seq<Entry>)
    ensures FlipAll(a + b) == FlipAll(a) + FlipAll(b)
  {
    if a == [] {
      assert a + b == b;
    } else {
      assert (a + b)[0] == a[0] && (a + b)[1..] == a[1..] + b;
      FlipAppend(a[1..], b);
    }
  }

  lemma {:induction false} FlipContext(es: seq<Entry>)
    ensures AllContext(FlipAll(es)) <==> AllContext(es)
  {
    if es != [] {
      FlipContext(es[1..]);
      assert FlipAll(es)[0] == Flip(es[0]) && FlipAll(es)[1..] == FlipAll(es[1..]);
    }
  }

  lemma {:induction false} FlipScript(pieces: seq<Piece>, tail: seq<Entry>)
    ensures Script(FlipPieces(pieces), FlipAll(tail)) == FlipAll(Script(pieces, tail))
  {
    if pieces != [] {
      var rest := Script(pieces[1..], tail);
      FlipScript(pieces[1..], tail);
      FlipAppend(pieces[0].gap, pieces[0].hunk + rest);
      FlipAppend(pieces[0].hunk, rest);
      assert FlipPieces(pieces)[0] == Piece(FlipAll(pieces[0].gap), FlipAll(pieces[0].hunk));
      assert FlipPieces(pieces)[1..] == FlipPieces(pieces[1..]);
    }
  }

  lemma {:induction false} FlipShaped(pieces: seq<Piece>, first: bool)
    requires Shaped(pieces, first)
    ensures Shaped(FlipPieces(pieces), first)
    ensures AllAnchored(FlipPieces(pieces)) <==> AllAnchored(pieces)
  {
    if pieces != [] {
      FlipShaped(pieces[1..], false);
      FlipContext(pieces[0].gap);
      FlipNumbers(pieces[0].hunk);
      assert FlipPieces(pieces)[0] == Piece(FlipAll(pieces[0].gap), FlipAll(pieces[0].hunk));
      assert FlipPieces(pieces)[1..] == FlipPieces(pieces[1..]);
    }
  }

  /** A context entry of an edit script prints the same text from either file. */
  lemma {:induction false} ReverseBodyIsFlip(es: seq<Entry>, p: nat, c: nat, prev: Lines, curr: Lines)
    requires Steps(es, p, c, prev, curr)
    ensures ReverseBody(PatchBody(es, prev, curr)) == PatchBody(FlipAll(es), curr, prev)
  {
    if es != [] {
      ReverseBodyIsFlip(es[1..], PrevNext(es[0], p), CurrNext(es[0], c), prev, curr);
      var body := PatchBody(es, prev, curr);
      assert body[0] == PatchLineOf(RowOf(es[0], prev, curr)) && body[1..] == PatchBody(es[1..], prev, curr);
      assert FlipAll(es)[0] == Flip(es[0]) && FlipAll(es)[1..] == FlipAll(es[1..]);
    }
  }

  lemma ReverseHunkIsFlip(b: seq<Entry>, p: nat, c: nat, prev: Lines, curr: Lines)
    requires Steps(b, p, c, prev, curr)
    ensures ReversePatch(PatchHunkOf(b, prev, curr)) == PatchHunkOf(FlipAll(b), curr, prev)
  {
    FlipNumbers(b);
    BodyOfRows(b, prev, curr);
    BodyOfRows(FlipAll(b), curr, prev);
    ReverseBodyIsFlip(b, p, c, prev, curr);
  }

  lemma {:induction false} ReverseIsFlip(pieces: seq<Piece>, tail: seq<Entry>, first: bool, p: nat, c: nat,
                                         prev: Lines, curr: Lines)
    requires Shaped(pieces, first) && Completes(Script(pieces, tail), p, c, prev, curr)
    requires p <= |prev| && c <= |curr|
    ensures ReverseAll(PiecePatches(pieces, prev, curr)) == PiecePatches(FlipPieces(pieces), curr, prev)
  {
    if pieces != [] {
      var a, b := pieces[0].gap, pieces[0].hunk;
      SplitSteps(a, b, Script(pieces[1..], tail), p, c, prev, curr);
      ReverseIsFlip(pieces[1..], tail, false, p + |a| + |PrevNumbers(b)|, c + |a| + |CurrNumbers(b)|, prev, curr);
      ReverseHunkIsFlip(b, p + |a|, c + |a|, prev, curr);
      var patches := PiecePatches(pieces, prev, curr);
      assert patches[0] == PatchHunkOf(b, prev, curr) && patches[1..] == PiecePatches(pieces[1..], prev, curr);
      assert FlipPieces(pieces)[0] == Piece(FlipAll(a), FlipAll(b))
             && FlipPieces(pieces)[1..] == FlipPieces(pieces[1..]);
    }
  }

  // ----- the theorem ---------------------------------------------------------------------------------

  /** Cutting an entry list at its hunk ranges. */
  lemma CutAtRanges(es: seq<Entry>, ctx: nat)
    ensures
      var ranges := RangesOf(es, ctx);
      && Follow(ranges, 0, |es|)
      && Script(Pieces(es, ranges, 0), TailOf(es, ranges, 0)) == es
      && Shaped(Pieces(es, ranges, 0), true) && AllContext(TailOf(es, ranges, 0))
  {
    var ranges := RangesOf(es, ctx);
    HunksShowExactlyTheNeighbourhoods(es, ctx);
    SeparatedFollow(ranges, 0, |es|);
    forall j | 0 <= j < |es| && !es[j].Context? ensures Shown(ranges, j) {
      assert NearChange(es, j, ctx);
    }
    PiecesShaped(es, ranges, 0);
    PiecesMakeScript(es, ranges, 0);
    assert es[0..] == es;
  }

  lemma PatchOfRanges(es: seq<Entry>, ctx: nat, prev: Lines, curr: Lines) returns (pieces: seq<Piece>, tail: seq<Entry>)
    ensures Script(pieces, tail) == es && Shaped(pieces, true) && AllContext(tail)
    ensures AllAnchored(pieces) <==> HunksAnchored(es, ctx)
    ensures PatchesOf(RangeHunks(es, RangesOf(es, ctx), prev, curr)) == PiecePatches(pieces, prev, curr)
  {
    var ranges := RangesOf(es, ctx);
    CutAtRanges(es, ctx);
    AnchoredIff(es, ranges, 0);
    pieces, tail := Pieces(es, ranges, 0), TailOf(es, ranges, 0);
    PieceHunks(es, ranges, 0, prev, curr);
    PiecePatchesArePatches(pieces, prev, curr);
  }

  /** The hunks of an edit script, as a patch, turn the previous file into the current one; they do
      so exactly when every hunk is anchored, and otherwise a strict patch program refuses them. */
  lemma HunksPatchForward(es: seq<Entry>, ctx: nat, prev: Lines, curr: Lines)
    requires IsEditScript(es, prev, curr)
    ensures ApplyPatch(PatchesOf(RangeHunks(es, RangesOf(es, ctx), prev, curr)), prev, 0, 0)
         == if HunksAnchored(es, ctx) then Some(curr) else None
  {
    EditScriptIffCompletes(es, prev, curr);
    var pieces, tail := PatchOfRanges(es, ctx, prev, curr);
    PatchIff(pieces, tail, true, 0, 0, prev, curr);
    NewTextIsCurrent(es, 0, 0, prev, curr);
    assert curr[0..] == curr;
  }

  /** The same hunks, applied in reverse to the current file, give the previous file back. */
  lemma HunksPatchBackward(es: seq<Entry>, ctx: nat, prev: Lines, curr: Lines)
    requires IsEditScript(es, prev, curr)
    ensures ApplyPatch(ReverseAll(PatchesOf(RangeHunks(es, RangesOf(es, ctx), prev, curr))), curr, 0, 0)
         == if HunksAnchored(es, ctx) then Some(prev) else None
  {
    EditScriptIffCompletes(es, prev, curr);
    var pieces, tail := PatchOfRanges(es, ctx, prev, curr);
    ReverseIsFlip(pieces, tail, true, 0, 0, prev, curr);
    FlipScript(pieces, tail);
    FlipShaped(pieces, true);
    FlipContext(tail);
    FlipSteps(es, 0, 0, prev, curr);
    FlipNumbers(es);
    PatchIff(FlipPieces(pieces), FlipAll(tail), true, 0, 0, curr, prev);
    NewTextIsCurrent(FlipAll(es), 0, 0, curr, prev);
    assert prev[0..] == prev;
  }
}
