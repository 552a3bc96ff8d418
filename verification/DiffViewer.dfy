/** The dashboard's reading of a rendered diff: web/dashboard/src/components/diff_viewer.rs. */
module DiffViewer {
  import opened Options
  import opened DiffText

  // ----- format prefix ---------------------------------------------------------------------------

  datatype DiffFormat = Unified | Context | FullFile | SideBySide | Raw

  predicate Contains(s: string, t: string) {
    t <= s || (s != "" && Contains(s[1..], t))
  }

  predicate LooksSideBySide(line: string) {
    var trimmed := Trim(line);
    "previous" <= trimmed && '|' in trimmed && Contains(trimmed, "current")
  }

  function PrefixOf(format: DiffFormat): string {
    match format
    case Unified => "@@format:unified@@\n"
    case Context => "@@format:context@@\n"
    case FullFile => "@@format:full_file@@\n"
    case SideBySide => "@@format:side_by_side@@\n"
    case Raw => "@@format:raw@@\n"
  }

  function AfterPrefix(text: string, format: DiffFormat): string
    requires PrefixOf(format) <= text
  {
    text[|PrefixOf(format)|..]
  }

  /** `parse_format_prefix`. */
  function ParseFormatPrefix(text: string): (DiffFormat, string) {
    if PrefixOf(Unified) <= text then (Unified, AfterPrefix(text, Unified))
    else if PrefixOf(Context) <= text then (Context, AfterPrefix(text, Context))
    else if PrefixOf(FullFile) <= text then (FullFile, AfterPrefix(text, FullFile))
    else if PrefixOf(SideBySide) <= text then (SideBySide, AfterPrefix(text, SideBySide))
    else if PrefixOf(Raw) <= text then (Raw, AfterPrefix(text, Raw))
    else
      var lines := LinesOf(text);
      if exists i :: 0 <= i < |lines| && LooksSideBySide(lines[i]) then (SideBySide, text) else (Unified, text)
  }

  /** The prefixes differ in their tenth character. */
  function TenthChar(format: DiffFormat): (c: char)
    ensures |PrefixOf(format)| > 9 && PrefixOf(format)[9] == c
  {
    match format
    case Unified => 'u'
    case Context => 'c'
    case FullFile => 'f'
    case SideBySide => 's'
    case Raw => 'r'
  }

  lemma OtherPrefix(format: DiffFormat, other: DiffFormat, rest: string)
    ensures PrefixOf(other) <= PrefixOf(format) + rest ==> TenthChar(other) == TenthChar(format)
  {
    var a, b := PrefixOf(other), PrefixOf(format);
    if a <= b + rest {
      assert (b + rest)[9] == b[9] && (b + rest)[9] == a[9];
    }
  }

  /** A rendering's prefix is read back as the format it was printed for. */
  lemma PrefixRead(format: DiffFormat, rest: string)
    ensures ParseFormatPrefix(PrefixOf(format) + rest) == (format, rest)
  {
    var text := PrefixOf(format) + rest;
    OtherPrefix(format, Unified, rest);
    OtherPrefix(format, Context, rest);
    OtherPrefix(format, FullFile, rest);
    OtherPrefix(format, SideBySide, rest);
    PrefixThenRest(PrefixOf(format), rest);
    assert AfterPrefix(text, format) == rest;
  }

  lemma PrefixThenRest(prefix: string, rest: string)
    ensures prefix <= prefix + rest && (prefix + rest)[|prefix|..] == rest
  {
  }

  // ----- lines -------------------------------------------------------------------------------------

  function ParseAll(lines: seq<string>): seq<RawLine> {
    if lines == [] then [] else [ParseLine(lines[0])] + ParseAll(lines[1..])
  }

  /** The loop of `parse_unified`. */
  method ParseLines(text: string) returns (raw: seq<RawLine>)
    ensures raw == ParseAll(LinesOf(text))
  {
    var lines := LinesOf(text);
    raw := [];
    for i := 0 to |lines|
      invariant raw + ParseAll(lines[i..]) == ParseAll(lines)
    {
      var line := ParseLine(lines[i]);
      ParseStep(lines, i, line, raw);
      raw := raw + [line];
    }
    assert raw + [] == raw;
  }

  lemma ParseStep(lines: seq<string>, i: nat, line: RawLine, done: seq<RawLine>)
    requires i < |lines| && line == ParseLine(lines[i])
    ensures done + ParseAll(lines[i..]) == (done + [line]) + ParseAll(lines[i + 1..])
  {
    assert lines[i..][0] == lines[i] && lines[i..][1..] == lines[i + 1..];
  }

  // ----- word-level highlighting -----------------------------------------------------------------

  datatype WordSegment = WordSegment(content: string, changed: bool)

  datatype DiffLine = DiffLine(lineNum: Option<nat>, kind: LineKind, content: string, words: seq<WordSegment>)

  /** The edit script of the `similar` crate over words. */
  datatype WordOp = Same(text: string) | Gone(text: string) | New(text: string)

  type WordDiffer = (string, string) -> seq<WordOp>

  function LeftText(ops: seq<WordOp>): string {
    if ops == [] then "" else (if ops[0].New? then "" else ops[0].text) + LeftText(ops[1..])
  }

  function RightText(ops: seq<WordOp>): string {
    if ops == [] then "" else (if ops[0].Gone? then "" else ops[0].text) + RightText(ops[1..])
  }

  /** A differ whose scripts rebuild both of its inputs. */
  ghost predicate FaithfulDiffer(differ: WordDiffer) {
    forall l: string, r: string :: LeftText(differ(l, r)) == l && RightText(differ(l, r)) == r
  }

  /** What one operation contributes to one side. */
  function OpSegments(op: WordOp, isLeft: bool): seq<WordSegment> {
    match op
    case Same(t) => [WordSegment(t, false)]
    case Gone(t) => if isLeft then [WordSegment(t, true)] else []
    case New(t) => if isLeft then [] else [WordSegment(t, true)]
  }

  function Segments(ops: seq<WordOp>, isLeft: bool): seq<WordSegment> {
    if ops == [] then [] else OpSegments(ops[0], isLeft) + Segments(ops[1..], isLeft)
  }

  function WordsFor(differ: WordDiffer, left: string, right: string, isLeft: bool): seq<WordSegment> {
    var segments := Segments(differ(left, right), isLeft);
    if segments == [] then [WordSegment(if isLeft then left else right, true)] else segments
  }

  /** `word_diff`. */
  method WordDiff(differ: WordDiffer, left: string, right: string, isLeft: bool) returns (segments: seq<WordSegment>)
    ensures segments == WordsFor(differ, left, right, isLeft)
  {
    var ops := differ(left, right);
    segments := [];
    for i := 0 to |ops|
      invariant segments + Segments(ops[i..], isLeft) == Segments(ops, isLeft)
    {
      SegmentStep(ops, i, isLeft, segments);
      match ops[i] {
        case Same(t) =>
          segments := segments + [WordSegment(t, false)];
        case Gone(t) =>
          if isLeft {
            segments := segments + [WordSegment(t, true)];
          }
        case New(t) =>
          if !isLeft {
            segments := segments + [WordSegment(t, true)];
          }
      }
    }
    assert segments + [] == segments;
    if segments == [] {
      segments := [WordSegment(if isLeft then left else right, true)];
    }
  }

  lemma SegmentStep(ops: seq<WordOp>, i: nat, isLeft: bool, done: seq<WordSegment>)
    requires i < |ops|
    ensures done + Segments(ops[i..], isLeft) == (done + OpSegments(ops[i], isLeft)) + Segments(ops[i + 1..], isLeft)
    ensures done + [] == done
  {
    assert ops[i..][0] == ops[i] && ops[i..][1..] == ops[i + 1..];
  }

  function WordsText(words: seq<WordSegment>): string {
    if words == [] then "" else words[0].content + WordsText(words[1..])
  }

  /** The text that is not highlighted. */
  function PlainText(words: seq<WordSegment>): string {
    if words == [] then "" else (if words[0].changed then "" else words[0].content) + PlainText(words[1..])
  }

  function SameText(ops: seq<WordOp>): string {
    if ops == [] then "" else (if ops[0].Same? then ops[0].text else "") + SameText(ops[1..])
  }

  lemma {:induction false} SegmentsText(ops: seq<WordOp>, isLeft: bool)
    ensures WordsText(Segments(ops, isLeft)) == if isLeft then LeftText(ops) else RightText(ops)
    ensures PlainText(Segments(ops, isLeft)) == SameText(ops)
  {
    if ops != [] {
      var first, rest := OpSegments(ops[0], isLeft), Segments(ops[1..], isLeft);
      SegmentsText(ops[1..], isLeft);
      TextCons(first, rest);
    }
  }

  lemma TextCons(first: seq<WordSegment>, rest: seq<WordSegment>)
    requires |first| <= 1
    ensures first == [] ==> first + rest == rest
    ensures first != [] ==>
              && WordsText(first + rest) == first[0].content + WordsText(rest)
              && PlainText(first + rest) == (if first[0].changed then "" else first[0].content) + PlainText(rest)
  {
    if first != [] {
      assert (first + rest)[0] == first[0] && (first + rest)[1..] == rest;
    }
  }

  /** With a faithful differ, the words of a line concatenate to the line, and the text left plain is
      the same on both sides of a pair. */
  lemma WordsRebuildLine(differ: WordDiffer, left: string, right: string)
    requires FaithfulDiffer(differ)
    ensures WordsText(WordsFor(differ, left, right, true)) == left
    ensures WordsText(WordsFor(differ, left, right, false)) == right
    ensures PlainText(WordsFor(differ, left, right, true)) == PlainText(WordsFor(differ, left, right, false))
  {
    var ops := differ(left, right);
    assert LeftText(ops) == left && RightText(ops) == right;
    SegmentsText(ops, true);
    SegmentsText(ops, false);
  }

  // ----- pairing -------------------------------------------------------------------------------------

  function Plain(raw: RawLine): DiffLine {
    DiffLine(raw.number, raw.kind, raw.content, [WordSegment(raw.content, false)])
  }

  function Highlighted(raw: RawLine): DiffLine {
    DiffLine(raw.number, raw.kind, raw.content, [WordSegment(raw.content, true)])
  }

  /** A removed line next to the added line that replaces it. */
  function Pair(differ: WordDiffer, removed: RawLine, added: RawLine): seq<DiffLine> {
    [DiffLine(removed.number, RemovedLine, removed.content, WordsFor(differ, removed.content, added.content, true)),
     DiffLine(added.number, AddedLine, added.content, WordsFor(differ, removed.content, added.content, false))]
  }

  function HighlightAll(raw: seq<RawLine>): seq<DiffLine> {
    if raw == [] then [] else [Highlighted(raw[0])] + HighlightAll(raw[1..])
  }

  /** A run of removed lines and the run of added lines after it: pairs first, then what is left. */
  function Block(differ: WordDiffer, removed: seq<RawLine>, added: seq<RawLine>): seq<DiffLine> {
    if removed != [] && added != [] then
      Pair(differ, removed[0], added[0]) + Block(differ, removed[1..], added[1..])
    else HighlightAll(removed) + HighlightAll(added)
  }

  /** The end of the run of lines of one kind that starts at i. */
  function RunEnd(raw: seq<RawLine>, i: nat, kind: LineKind): (j: nat)
    requires i <= |raw|
    ensures i <= j <= |raw|
    decreases |raw| - i
  {
    if i < |raw| && raw[i].kind == kind then RunEnd(raw, i + 1, kind) else i
  }

  function BuildFrom(differ: WordDiffer, raw: seq<RawLine>, i: nat): seq<DiffLine>
    requires i <= |raw|
    decreases |raw| - i
  {
    if i == |raw| then []
    else
      match raw[i].kind
      case RemovedLine =>
        var j := RunEnd(raw, i + 1, RemovedLine);
        var k := RunEnd(raw, j, AddedLine);
        Block(differ, raw[i..j], raw[j..k]) + BuildFrom(differ, raw, k)
      case AddedLine => [Highlighted(raw[i])] + BuildFrom(differ, raw, i + 1)
      case _ => [Plain(raw[i])] + BuildFrom(differ, raw, i + 1)
  }

  /** `pair_and_build`. */
  method PairAndBuild(differ: WordDiffer, raw: seq<RawLine>) returns (result: seq<DiffLine>)
    ensures result == BuildFrom(differ, raw, 0)
  {
    result := [];
    var i := 0;
    while i < |raw|
      invariant i <= |raw|
      invariant result + BuildFrom(differ, raw, i) == BuildFrom(differ, raw, 0)
    {
      match raw[i].kind {
        case RemovedLine =>
          var j := ScanRun(raw, i + 1, RemovedLine);
          var k := ScanRun(raw, j, AddedLine);
          var block := BuildBlock(differ, raw[i..j], raw[j..k]);
          BlockStep(differ, raw, i, result);
          result := result + block;
          i := k;
        case AddedLine =>
          LineStep(differ, raw, i, result);
          result := result + [DiffLine(raw[i].number, AddedLine, raw[i].content, [WordSegment(raw[i].content, true)])];
          i := i + 1;
        case _ =>
          LineStep(differ, raw, i, result);
          result := result
            + [DiffLine(raw[i].number, raw[i].kind, raw[i].content, [WordSegment(raw[i].content, false)])];
          i := i + 1;
      }
    }
    assert result + [] == result;
  }

  lemma LineStep(differ: WordDiffer, raw: seq<RawLine>, i: nat, done: seq<DiffLine>)
    requires i < |raw| && !raw[i].kind.RemovedLine?
    ensures done + BuildFrom(differ, raw, i)
         == (done + [if raw[i].kind.AddedLine? then Highlighted(raw[i]) else Plain(raw[i])])
            + BuildFrom(differ, raw, i + 1)
  {
  }

  lemma BlockStep(differ: WordDiffer, raw: seq<RawLine>, i: nat, done: seq<DiffLine>)
    requires i < |raw| && raw[i].kind.RemovedLine?
    ensures
      var j := RunEnd(raw, i + 1, RemovedLine);
      var k := RunEnd(raw, j, AddedLine);
      done + BuildFrom(differ, raw, i) == (done + Block(differ, raw[i..j], raw[j..k])) + BuildFrom(differ, raw, k)
  {
  }

  method ScanRun(raw: seq<RawLine>, i: nat, kind: LineKind) returns (j: nat)
    requires i <= |raw|
    ensures j == RunEnd(raw, i, kind)
  {
    j := i;
    while j < |raw| && raw[j].kind == kind
      invariant i <= j <= |raw|
      invariant RunEnd(raw, j, kind) == RunEnd(raw, i, kind)
    {
      j := j + 1;
    }
  }

  /** The pairing loop and the two loops over what is left. */
  method BuildBlock(differ: WordDiffer, removed: seq<RawLine>, added: seq<RawLine>) returns (block: seq<DiffLine>)
    ensures block == Block(differ, removed, added)
  {
    var paired := if |removed| < |added| then |removed| else |added|;
    block := [];
    for k := 0 to paired
      invariant block + Block(differ, removed[k..], added[k..]) == Block(differ, removed, added)
    {
      PairStep(differ, removed, added, k, block);
      var leftWords := WordDiff(differ, removed[k].content, added[k].content, true);
      var rightWords := WordDiff(differ, removed[k].content, added[k].content, false);
      block := block + [DiffLine(removed[k].number, RemovedLine, removed[k].content, leftWords),
                        DiffLine(added[k].number, AddedLine, added[k].content, rightWords)];
    }
    var restRemoved := HighlightRest(removed[paired..]);
    var restAdded := HighlightRest(added[paired..]);
    assert Block(differ, removed[paired..], added[paired..]) == restRemoved + restAdded;
    block := block + (restRemoved + restAdded);
  }

  lemma PairStep(differ: WordDiffer, removed: seq<RawLine>, added: seq<RawLine>, k: nat, done: seq<DiffLine>)
    requires k < |removed| && k < |added|
    ensures done + Block(differ, removed[k..], added[k..])
         == (done + Pair(differ, removed[k], added[k])) + Block(differ, removed[k + 1..], added[k + 1..])
  {
    assert removed[k..][1..] == removed[k + 1..] && added[k..][1..] == added[k + 1..];
  }

  method HighlightRest(raw: seq<RawLine>) returns (lines: seq<DiffLine>)
    ensures lines == HighlightAll(raw)
  {
    lines := [];
    for i := 0 to |raw|
      invariant lines + HighlightAll(raw[i..]) == HighlightAll(raw)
    {
      assert raw[i..][0] == raw[i] && raw[i..][1..] == raw[i + 1..];
      lines := lines + [DiffLine(raw[i].number, raw[i].kind, raw[i].content, [WordSegment(raw[i].content, true)])];
    }
    assert raw[|raw|..] == [] && lines + [] == lines;
  }
}
