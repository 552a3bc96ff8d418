/** What the dashboard shows of a diff: pairing keeps every line, and a printed diff is read back. */
module ViewerTheorems {
  import opened DiffText
  import opened DiffViewer

  // ----- pairing keeps every line and both orders --------------------------------------------------

  function Erase(lines: seq<DiffLine>): seq<RawLine> {
    if lines == [] then []
    else [RawLine(lines[0].kind, lines[0].lineNum, lines[0].content)] + Erase(lines[1..])
  }

  function NonAdded(raw: seq<RawLine>): seq<RawLine> {
    if raw == [] then []
    else if raw[0].kind.AddedLine? then NonAdded(raw[1..])
    else [raw[0]] + NonAdded(raw[1..])
  }

  function NonRemoved(raw: seq<RawLine>): seq<RawLine> {
    if raw == [] then []
    else if raw[0].kind.RemovedLine? then NonRemoved(raw[1..])
    else [raw[0]] + NonRemoved(raw[1..])
  }

  predicate AllKind(raw: seq<RawLine>, kind: LineKind) {
    raw == [] || (raw[0].kind == kind && AllKind(raw[1..], kind))
  }

  lemma {:induction false} EraseAppend(a: seq<DiffLine>, b: seq<DiffLine>)
    ensures Erase(a + b) == Erase(a) + Erase(b)
  {
    if a == [] {
      assert a + b == b;
    } else {
      assert (a + b)[0] == a[0] && (a + b)[1..] == a[1..] + b;
      EraseAppend(a[1..], b);
    }
  }

  lemma {:induction false} NonAddedAppend(a: seq<RawLine>, b: seq<RawLine>)
    ensures NonAdded(a + b) == NonAdded(a) + NonAdded(b)
  {
    if a == [] {
      assert a + b == b;
    } else {
      assert (a + b)[0] == a[0] && (a + b)[1..] == a[1..] + b;
      NonAddedAppend(a[1..], b);
    }
  }

  lemma {:induction false} NonRemovedAppend(a: seq<RawLine>, b: seq<RawLine>)
    ensures NonRemoved(a + b) == NonRemoved(a) + NonRemoved(b)
  {
    if a == [] {
      assert a + b == b;
    } else {
      assert (a + b)[0] == a[0] && (a + b)[1..] == a[1..] + b;
      NonRemovedAppend(a[1..], b);
    }
  }

  lemma {:induction false} KindFilters(raw: seq<RawLine>, kind: LineKind)
    requires AllKind(raw, kind)
    ensures NonAdded(raw) == if kind.AddedLine? then [] else raw
    ensures NonRemoved(raw) == if kind.RemovedLine? then [] else raw
  {
    if raw != [] {
      KindFilters(raw[1..], kind);
      assert raw == [raw[0]] + raw[1..];
    }
  }

  lemma {:induction false} HighlightKeeps(raw: seq<RawLine>)
    ensures Erase(HighlightAll(raw)) == raw
  {
    if raw != [] {
      HighlightKeeps(raw[1..]);
      assert HighlightAll(raw)[0] == Highlighted(raw[0]) && HighlightAll(raw)[1..] == HighlightAll(raw[1..]);
      assert raw == [raw[0]] + raw[1..];
    }
  }

  lemma EraseOne(line: DiffLine, raw: RawLine)
    requires line.kind == raw.kind && line.lineNum == raw.number && line.content == raw.content
    ensures Erase([line]) == [raw]
  {
    assert [line][1..] == [];
  }

  lemma PairErased(differ: WordDiffer, removed: RawLine, added: RawLine)
    requires removed.kind.RemovedLine? && added.kind.AddedLine?
    ensures Erase(Pair(differ, removed, added)) == [removed, added]
  {
    var pair := Pair(differ, removed, added);
    assert pair == [pair[0]] + [pair[1]];
    EraseAppend([pair[0]], [pair[1]]);
    EraseOne(pair[0], removed);
    EraseOne(pair[1], added);
  }

  lemma {:induction false} BlockKeeps(differ: WordDiffer, removed: seq<RawLine>, added: seq<RawLine>)
    requires AllKind(removed, RemovedLine) && AllKind(added, AddedLine)
    ensures NonAdded(Erase(Block(differ, removed, added))) == removed
    ensures NonRemoved(Erase(Block(differ, removed, added))) == added
  {
    if removed != [] && added != [] {
      var pair, rest := Pair(differ, removed[0], added[0]), Block(differ, removed[1..], added[1..]);
      BlockKeeps(differ, removed[1..], added[1..]);
      PairErased(differ, removed[0], added[0]);
      EraseAppend(pair, rest);
      NonAddedAppend([removed[0], added[0]], Erase(rest));
      NonRemovedAppend([removed[0], added[0]], Erase(rest));
      PairFilters(removed[0], added[0]);
      assert removed == [removed[0]] + removed[1..] && added == [added[0]] + added[1..];
    } else {
      HighlightKeeps(removed);
      HighlightKeeps(added);
      EraseAppend(HighlightAll(removed), HighlightAll(added));
      NonAddedAppend(removed, added);
      NonRemovedAppend(removed, added);
      KindFilters(removed, RemovedLine);
      KindFilters(added, AddedLine);
    }
  }

  lemma PairFilters(removed: RawLine, added: RawLine)
    requires removed.kind.RemovedLine? && added.kind.AddedLine?
    ensures NonAdded([removed, added]) == [removed]
    ensures NonRemoved([removed, added]) == [added]
  {
    var pair := [removed, added];
    assert pair[1..] == [added] && [added][1..] == [];
    KindFilters([added], AddedLine);
  }

  /** A run is of one kind, and ends where the kind changes. */
  lemma {:induction false} RunIsMaximal(raw: seq<RawLine>, i: nat, kind: LineKind)
    requires i <= |raw|
    ensures AllKind(raw[i..RunEnd(raw, i, kind)], kind)
    ensures RunEnd(raw, i, kind) == |raw| || raw[RunEnd(raw, i, kind)].kind != kind
    decreases |raw| - i
  {
    if i < |raw| && raw[i].kind == kind {
      RunIsMaximal(raw, i + 1, kind);
      assert raw[i..RunEnd(raw, i, kind)][1..] == raw[i + 1..RunEnd(raw, i, kind)];
    }
  }

  /** Displayed lines hold the same lines as the text, in the order of each file. */
  predicate SameLines(lines: seq<DiffLine>, raw: seq<RawLine>) {
    && NonAdded(Erase(lines)) == NonAdded(raw)
    && NonRemoved(Erase(lines)) == NonRemoved(raw)
  }

  lemma SameLinesAppend(head: seq<DiffLine>, tail: seq<DiffLine>, rawHead: seq<RawLine>, rawTail: seq<RawLine>,
                        all: seq<RawLine>)
    requires SameLines(head, rawHead) && SameLines(tail, rawTail) && all == rawHead + rawTail
    ensures SameLines(head + tail, all)
  {
    EraseAppend(head, tail);
    NonAddedAppend(Erase(head), Erase(tail));
    NonAddedAppend(rawHead, rawTail);
    NonRemovedAppend(Erase(head), Erase(tail));
    NonRemovedAppend(rawHead, rawTail);
  }

  lemma BlockSameLines(differ: WordDiffer, removed: seq<RawLine>, added: seq<RawLine>)
    requires AllKind(removed, RemovedLine) && AllKind(added, AddedLine)
    ensures SameLines(Block(differ, removed, added), removed + added)
  {
    BlockKeeps(differ, removed, added);
    NonAddedAppend(removed, added);
    NonRemovedAppend(removed, added);
    KindFilters(removed, RemovedLine);
    KindFilters(added, AddedLine);
  }

  lemma RunOfRemoved(raw: seq<RawLine>, i: nat, j: nat, k: nat)
    requires i < |raw| && raw[i].kind.RemovedLine?
    requires j == RunEnd(raw, i + 1, RemovedLine) && k == RunEnd(raw, j, AddedLine)
    ensures AllKind(raw[i..j], RemovedLine) && AllKind(raw[j..k], AddedLine)
    ensures (raw[i..j] + raw[j..k]) + raw[k..] == raw[i..]
  {
    RunIsMaximal(raw, i + 1, RemovedLine);
    RunIsMaximal(raw, j, AddedLine);
    assert raw[i..j][1..] == raw[i + 1..j];
  }

  /** Pairing shows every line once: without the added lines, the lines and their order are those of
      the text without its added lines; and the same without the removed lines. */
  lemma {:induction false} PairingKeepsLines(differ: WordDiffer, raw: seq<RawLine>, i: nat)
    requires i <= |raw|
    ensures SameLines(BuildFrom(differ, raw, i), raw[i..])
    decreases |raw| - i
  {
    if i < |raw| {
      if raw[i].kind.RemovedLine? {
        var j := RunEnd(raw, i + 1, RemovedLine);
        var k := RunEnd(raw, j, AddedLine);
        RunOfRemoved(raw, i, j, k);
        PairingKeepsLines(differ, raw, k);
        BlockSameLines(differ, raw[i..j], raw[j..k]);
        SameLinesAppend(Block(differ, raw[i..j], raw[j..k]), BuildFrom(differ, raw, k),
                        raw[i..j] + raw[j..k], raw[k..], raw[i..]);
      } else {
        var line := if raw[i].kind.AddedLine? then Highlighted(raw[i]) else Plain(raw[i]);
        PairingKeepsLines(differ, raw, i + 1);
        EraseOne(line, raw[i]);
        SameLinesAppend([line], BuildFrom(differ, raw, i + 1), [raw[i]], raw[i + 1..], raw[i..]);
      }
    }
  }

  // ----- pairs stand together and words rebuild the lines -----------------------------------------

  /** In a block, the k-th removed line is directly followed by the k-th added line. */
  lemma {:induction false} PairsAdjacent(differ: WordDiffer, removed: seq<RawLine>, added: seq<RawLine>, k: nat)
    requires k < |removed| && k < |added|
    ensures 2 * k + 1 < |Block(differ, removed, added)|
    ensures Block(differ, removed, added)[2 * k..2 * k + 2] == Pair(differ, removed[k], added[k])
  {
    var block := Block(differ, removed, added);
    var pair, rest := Pair(differ, removed[0], added[0]), Block(differ, removed[1..], added[1..]);
    assert block == pair + rest && |pair| == 2;
    if k > 0 {
      PairsAdjacent(differ, removed[1..], added[1..], k - 1);
      assert block[2 * k..2 * k + 2] == rest[2 * (k - 1)..2 * (k - 1) + 2];
    }
  }

  predicate Spells(line: DiffLine) {
    WordsText(line.words) == line.content
  }

  predicate WordsRebuild(lines: seq<DiffLine>) {
    forall k :: 0 <= k < |lines| ==> Spells(lines[k])
  }

  lemma WordsRebuildAppend(a: seq<DiffLine>, b: seq<DiffLine>)
    ensures WordsRebuild(a + b) <==> WordsRebuild(a) && WordsRebuild(b)
  {
    forall k | 0 <= k < |a| ensures Spells(a[k]) == Spells((a + b)[k]) {}
    forall k | 0 <= k < |b| ensures Spells(b[k]) == Spells((a + b)[|a| + k]) {}
  }

  lemma OneSegment(content: string, changed: bool)
    ensures WordsText([WordSegment(content, changed)]) == content
  {
    var words := [WordSegment(content, changed)];
    assert words[1..] == [];
    assert content + "" == content;
  }

  lemma OneLineRebuilds(raw: RawLine)
    ensures WordsRebuild([Plain(raw)]) && WordsRebuild([Highlighted(raw)])
  {
    OneSegment(raw.content, false);
    OneSegment(raw.content, true);
  }

  lemma {:induction false} HighlightRebuilds(raw: seq<RawLine>)
    ensures WordsRebuild(HighlightAll(raw))
  {
    if raw != [] {
      HighlightRebuilds(raw[1..]);
      OneLineRebuilds(raw[0]);
      WordsRebuildAppend([Highlighted(raw[0])], HighlightAll(raw[1..]));
    }
  }

  lemma {:induction false} BlockRebuilds(differ: WordDiffer, removed: seq<RawLine>, added: seq<RawLine>)
    requires FaithfulDiffer(differ)
    ensures WordsRebuild(Block(differ, removed, added))
  {
    if removed != [] && added != [] {
      var pair := Pair(differ, removed[0], added[0]);
      BlockRebuilds(differ, removed[1..], added[1..]);
      WordsRebuildLine(differ, removed[0].content, added[0].content);
      WordsRebuildAppend(pair, Block(differ, removed[1..], added[1..]));
    } else {
      HighlightRebuilds(removed);
      HighlightRebuilds(added);
      WordsRebuildAppend(HighlightAll(removed), HighlightAll(added));
    }
  }

  /** Every displayed line's words concatenate to the line. */
  lemma {:induction false} DisplayRebuildsLines(differ: WordDiffer, raw: seq<RawLine>, i: nat)
    requires FaithfulDiffer(differ) && i <= |raw|
    ensures WordsRebuild(BuildFrom(differ, raw, i))
    decreases |raw| - i
  {
    if i < |raw| {
      if raw[i].kind.RemovedLine? {
        var j := RunEnd(raw, i + 1, RemovedLine);
        var k := RunEnd(raw, j, AddedLine);
        DisplayRebuildsLines(differ, raw, k);
        BlockRebuilds(differ, raw[i..j], raw[j..k]);
        WordsRebuildAppend(Block(differ, raw[i..j], raw[j..k]), BuildFrom(differ, raw, k));
      } else {
        var line := if raw[i].kind.AddedLine? then Highlighted(raw[i]) else Plain(raw[i]);
        DisplayRebuildsLines(differ, raw, i + 1);
        OneLineRebuilds(raw[i]);
        WordsRebuildAppend([line], BuildFrom(differ, raw, i + 1));
      }
    }
  }
}
