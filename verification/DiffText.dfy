/** The text of a rendered diff: how crates/config-diff/src/difftastic.rs prints a line and how
    web/dashboard/src/components/diff_viewer.rs reads it back. */
module DiffText {
  import opened Options

  datatype LineKind = Header | HunkMeta | ContextLine | AddedLine | RemovedLine

  /** A body line of a rendered diff; `number` is 1-based. */
  datatype Row = Row(kind: LineKind, number: nat, content: string)

  /** What the dashboard makes of one line of text. */
  datatype RawLine = RawLine(kind: LineKind, number: Option<nat>, content: string)

  const U32_LIMIT: nat := 0x1_0000_0000

  // ----- printing ------------------------------------------------------------------------------

  function Digit(d: nat): (c: char)
    requires d < 10
    ensures IsDigit(c) && DigitValue(c) == d
  {
    (d + '0' as nat) as char
  }

  predicate IsDigit(c: char) {
    '0' <= c <= '9'
  }

  function DigitValue(c: char): nat
    requires IsDigit(c)
  {
    c as nat - '0' as nat
  }

  function Decimal(n: nat): (s: string)
    ensures s != "" && forall i :: 0 <= i < |s| ==> IsDigit(s[i])
  {
    if n < 10 then [Digit(n)] else Decimal(n / 10) + [Digit(n % 10)]
  }

  function Spaces(k: nat): (s: string)
    ensures |s| == k && forall i :: 0 <= i < |s| ==> s[i] == ' '
  {
    if k == 0 then "" else " " + Spaces(k - 1)
  }

  /** `{:>4}`. */
  function PadNumber(n: nat): string {
    var d := Decimal(n);
    Spaces(if |d| < 4 then 4 - |d| else 0) + d
  }

  function Marker(kind: LineKind): char {
    match kind
    case AddedLine => '+'
    case RemovedLine => '-'
    case _ => ' '
  }

  function PrintRow(row: Row): string {
    PadNumber(row.number) + " | " + [Marker(row.kind)] + row.content
  }

  /** Every line followed by a newline. */
  function Unlines(lines: seq<string>): string {
    if lines == [] then "" else lines[0] + "\n" + Unlines(lines[1..])
  }

  // ----- reading -------------------------------------------------------------------------------

  function StripCr(line: string): string {
    if line != "" && line[|line| - 1] == '\r' then line[..|line| - 1] else line
  }

  /** The first newline at or after position i. */
  function NewlineFrom(text: string, i: nat): (r: Option<nat>)
    requires i <= |text|
    ensures r.Some? ==> i <= r.value < |text| && text[r.value] == '\n' && '\n' !in text[i..r.value]
    ensures r.None? ==> '\n' !in text[i..]
    decreases |text| - i
  {
    if i == |text| then None
    else if text[i] == '\n' then Some(i)
    else NewlineFrom(text, i + 1)
  }

  /** `str::lines`: a final piece without a newline keeps its carriage return. */
  function LinesOf(text: string): seq<string>
    decreases |text|
  {
    if text == "" then []
    else
      match NewlineFrom(text, 0)
      case None => [text]
      case Some(i) => [StripCr(text[..i])] + LinesOf(text[i + 1..])
  }

  predicate SeparatorAt(line: string, i: nat) {
    i + 3 <= |line| && line[i] == ' ' && line[i + 1] == '|' && line[i + 2] == ' '
  }

  /** `find(" | ")` from position i on. */
  function FindSeparator(line: string, i: nat): (r: Option<nat>)
    requires i <= |line|
    ensures r.Some? ==> i <= r.value && SeparatorAt(line, r.value)
    ensures r.Some? ==> forall j :: i <= j < r.value ==> !SeparatorAt(line, j)
    ensures r.None? ==> forall j :: i <= j ==> !SeparatorAt(line, j)
    decreases |line| - i
  {
    if |line| < i + 3 then None
    else if SeparatorAt(line, i) then Some(i)
    else FindSeparator(line, i + 1)
  }

  /** Unicode White_Space, as `str::trim` uses it. */
  predicate IsWhitespace(c: char) {
    var n := c as nat;
    || 9 <= n <= 13 || n == 32 || n == 0x85 || n == 0xA0 || n == 0x1680
    || 0x2000 <= n <= 0x200A || n == 0x2028 || n == 0x2029 || n == 0x202F || n == 0x205F || n == 0x3000
  }

  function TrimStart(s: string): string {
    if s != "" && IsWhitespace(s[0]) then TrimStart(s[1..]) else s
  }

  function TrimEnd(s: string): string {
    if s != "" && IsWhitespace(s[|s| - 1]) then TrimEnd(s[..|s| - 1]) else s
  }

  function Trim(s: string): string {
    TrimEnd(TrimStart(s))
  }

  predicate AllDigits(s: string) {
    forall i :: 0 <= i < |s| ==> IsDigit(s[i])
  }

  function DecimalValue(s: string): nat
    requires AllDigits(s)
  {
    if s == "" then 0 else 10 * DecimalValue(s[..|s| - 1]) + DigitValue(s[|s| - 1])
  }

  /** `str::parse::<u32>`: an optional plus sign, at least one digit, no overflow. */
  function ParseU32(s: string): Option<nat> {
    var body := if s != "" && s[0] == '+' then s[1..] else s;
    if body != "" && AllDigits(body) && DecimalValue(body) < U32_LIMIT then Some(DecimalValue(body)) else None
  }

  predicate IsHeaderText(rest: string) {
    "diff " <= rest || "index " <= rest || "--- " <= rest || "+++ " <= rest
  }

  /** One iteration of the loop in `parse_unified`. */
  function ParseLine(line: string): RawLine {
    var sep := FindSeparator(line, 0);
    var number := if sep.Some? then ParseU32(Trim(line[..sep.value])) else None;
    var rest := if number.Some? then line[sep.value + 3..] else line;
    if IsHeaderText(rest) then RawLine(Header, None, rest)
    else if "@@" <= rest then RawLine(HunkMeta, None, rest)
    else if "+" <= rest then RawLine(AddedLine, number, rest[1..])
    else if "-" <= rest then RawLine(RemovedLine, number, rest[1..])
    else if " " <= rest && |rest| > 1 then RawLine(ContextLine, number, rest[1..])
    else RawLine(ContextLine, number, rest)
  }

  // ----- numbers survive -----------------------------------------------------------------------

  lemma {:induction false} DecimalRoundTrip(n: nat)
    ensures DecimalValue(Decimal(n)) == n
  {
    var s := Decimal(n);
    if n < 10 {
      assert s[..|s| - 1] == "";
    } else {
      DecimalRoundTrip(n / 10);
      assert s[..|s| - 1] == Decimal(n / 10);
    }
  }

  lemma ParseDecimal(n: nat)
    ensures ParseU32(Decimal(n)) == if n < U32_LIMIT then Some(n) else None
  {
    DecimalRoundTrip(n);
    assert Decimal(n)[0] != '+';
  }

  lemma {:induction false} TrimPadding(k: nat, s: string)
    requires s != "" && AllDigits(s)
    ensures Trim(Spaces(k) + s) == s
  {
    if k == 0 {
      assert Spaces(0) + s == s;
      assert !IsWhitespace(s[0]) && !IsWhitespace(s[|s| - 1]);
    } else {
      var padded := Spaces(k) + s;
      assert padded[0] == ' ' && padded[1..] == Spaces(k - 1) + s;
      TrimPadding(k - 1, s);
    }
  }

  lemma PaddedNumber(n: nat)
    ensures PadNumber(n) != "" && forall i :: 0 <= i < |PadNumber(n)| ==> PadNumber(n)[i] != '|'
    ensures Trim(PadNumber(n)) == Decimal(n)
  {
    var d := Decimal(n);
    TrimPadding(if |d| < 4 then 4 - |d| else 0, d);
  }

  /** In `padded number, separator, rest` the first separator is the printed one. */
  lemma SeparatorAfterNumber(num: string, rest: string)
    requires forall i :: 0 <= i < |num| ==> num[i] != '|'
    ensures FindSeparator(num + " | " + rest, 0) == Some(|num|)
  {
    var line := num + " | " + rest;
    assert SeparatorAt(line, |num|);
    forall j | 0 <= j < |num| ensures !SeparatorAt(line, j) {
      if j + 1 < |num| {
        assert line[j + 1] == num[j + 1];
      }
    }
  }

  lemma ParseNumbered(n: nat, rest: string)
    ensures
      var line := PadNumber(n) + " | " + rest;
      FindSeparator(line, 0) == Some(|PadNumber(n)|)
      && line[..|PadNumber(n)|] == PadNumber(n)
      && line[|PadNumber(n)| + 3..] == rest
      && ParseU32(Trim(line[..|PadNumber(n)|])) == if n < U32_LIMIT then Some(n) else None
  {
    PaddedNumber(n);
    SeparatorAfterNumber(PadNumber(n), rest);
    ParseDecimal(n);
  }

  // ----- lines survive -------------------------------------------------------------------------

  predicate NoNewlines(lines: seq<string>) {
    forall i :: 0 <= i < |lines| ==> '\n' !in lines[i]
  }

  function StripAll(lines: seq<string>): (r: seq<string>)
    ensures |r| == |lines| && forall i :: 0 <= i < |r| ==> r[i] == StripCr(lines[i])
  {
    if lines == [] then [] else [StripCr(lines[0])] + StripAll(lines[1..])
  }

  lemma FirstNewline(line: string, rest: string)
    requires '\n' !in line
    ensures NewlineFrom(line + "\n" + rest, 0) == Some(|line|)
  {
    var text := line + "\n" + rest;
    assert text[|line|] == '\n';
    var r := NewlineFrom(text, 0);
    assert text[|line|] in text[0..];
  }

  lemma {:induction false} LinesOfUnlines(lines: seq<string>)
    requires NoNewlines(lines)
    ensures LinesOf(Unlines(lines)) == StripAll(lines)
  {
    if lines != [] {
      var rest := Unlines(lines[1..]);
      var text := lines[0] + "\n" + rest;
      FirstNewline(lines[0], rest);
      assert text[..|lines[0]|] == lines[0] && text[|lines[0]| + 1..] == rest;
      LinesOfUnlines(lines[1..]);
    }
  }

  lemma FirstLine(line: string, rest: string)
    requires '\n' !in line
    ensures LinesOf(line + "\n" + rest) == [StripCr(line)] + LinesOf(rest)
  {
    var text := line + "\n" + rest;
    FirstNewline(line, rest);
    assert text[..|line|] == line && text[|line| + 1..] == rest;
  }

  lemma OnlyLine(line: string)
    requires '\n' !in line && line != ""
    ensures LinesOf(line) == [line]
  {
    assert line[0..] == line;
  }

  lemma UnlinesFirst(line: string, lines: seq<string>, last: string)
    ensures Unlines([line] + lines) + last == line + "\n" + (Unlines(lines) + last)
  {
    assert ([line] + lines)[1..] == lines;
    var rest := Unlines(lines);
    assert line + "\n" + rest + last == line + "\n" + (rest + last);
  }

  /** A last line without a newline stays as it is, also when it ends in a carriage return. */
  lemma {:induction false} LinesOfUnfinished(lines: seq<string>, last: string)
    requires NoNewlines(lines) && '\n' !in last && last != ""
    ensures LinesOf(Unlines(lines) + last) == StripAll(lines) + [last]
  {
    if lines == [] {
      assert "" + last == last;
      OnlyLine(last);
    } else {
      assert lines == [lines[0]] + lines[1..];
      UnlinesFirst(lines[0], lines[1..], last);
      FirstLine(lines[0], Unlines(lines[1..]) + last);
      LinesOfUnfinished(lines[1..], last);
    }
  }

  lemma {:induction false} LinesHaveNoNewlines(text: string)
    ensures NoNewlines(LinesOf(text))
    decreases |text|
  {
    if text != "" && NewlineFrom(text, 0).Some? {
      var i := NewlineFrom(text, 0).value;
      LinesHaveNoNewlines(text[i + 1..]);
      assert '\n' !in text[0..i];
      assert text[0..i] == text[..i];
    } else if text != "" {
      assert text[0..] == text;
    }
  }

  // ----- a printed row is recovered exactly when it is recoverable ----------------------------

  predicate IsBodyKind(kind: LineKind) {
    kind.ContextLine? || kind.AddedLine? || kind.RemovedLine?
  }

  /** What the text format can carry: the number fits 32 bits, no trailing carriage return, no
      empty context line, and no removed or added text that makes the line look like a header. */
  predicate Recoverable(row: Row) {
    && row.number < U32_LIMIT
    && !(row.content != "" && row.content[|row.content| - 1] == '\r')
    && match row.kind
       case ContextLine => row.content != ""
       case RemovedLine => !("-- " <= row.content)
       case AddedLine => !("++ " <= row.content)
       case _ => false
  }

  function AsRaw(row: Row): RawLine {
    RawLine(row.kind, Some(row.number), row.content)
  }

  /** What `parse_unified` makes of a marker followed by content. */
  function ParseMarked(kind: LineKind, number: Option<nat>, content: string): RawLine {
    match kind
    case AddedLine =>
      if "++ " <= content then RawLine(Header, None, "+" + content) else RawLine(kind, number, content)
    case RemovedLine =>
      if "-- " <= content then RawLine(Header, None, "-" + content) else RawLine(kind, number, content)
    case _ => RawLine(ContextLine, number, if content == "" then " " else content)
  }

  lemma PrefixCons(c: char, s: string, t: string)
    ensures [c] + s <= [c] + t <==> s <= t
  {
    if [c] + s <= [c] + t {
      assert ([c] + t)[..|s| + 1][1..] == t[..|s|];
      assert ([c] + s)[1..] == s;
    }
  }

  /** How the classification chain of `parse_unified` sees a marker followed by content. */
  lemma ClassifyMarked(kind: LineKind, content: string)
    requires IsBodyKind(kind)
    ensures
      var rest := [Marker(kind)] + content;
      && (IsHeaderText(rest) <==> (kind.AddedLine? && "++ " <= content) || (kind.RemovedLine? && "-- " <= content))
      && !("@@" <= rest)
      && ("+" <= rest <==> kind.AddedLine?) && ("-" <= rest <==> kind.RemovedLine?)
      && rest[1..] == content
  {
    PrefixCons('+', "++ ", content);
    PrefixCons('-', "-- ", content);
    assert ['+'] + "++ " == "+++ " && ['-'] + "-- " == "--- ";
    var rest := [Marker(kind)] + content;
    assert rest[0] == Marker(kind);
  }

  lemma ParseMarkedText(row: Row, content: string)
    requires IsBodyKind(row.kind) && row.number < U32_LIMIT
    ensures ParseLine(PadNumber(row.number) + " | " + ([Marker(row.kind)] + content))
         == ParseMarked(row.kind, Some(row.number), content)
  {
    var rest := [Marker(row.kind)] + content;
    ParseNumbered(row.number, rest);
    ClassifyMarked(row.kind, content);
    assert content == "" ==> rest == [Marker(row.kind)];
  }

  /** What the dashboard makes of a printed row. */
  function ReadRow(row: Row): RawLine {
    ParseLine(StripCr(PrintRow(row)))
  }

  lemma StripPrinted(row: Row)
    ensures StripCr(PrintRow(row)) == PadNumber(row.number) + " | " + ([Marker(row.kind)] + StripCr(row.content))
  {
    var n, m, line := PadNumber(row.number), [Marker(row.kind)], PrintRow(row);
    assert line == n + " | " + (m + row.content);
    if row.content == "" {
      assert line[|line| - 1] == m[0];
    } else {
      assert line[|line| - 1] == row.content[|row.content| - 1];
    }
  }

  lemma {:induction false} DecimalLength(n: nat)
    ensures n >= 1000 ==> |Decimal(n)| >= 4
    ensures n >= 100 ==> |Decimal(n)| >= 3
    ensures n >= 10 ==> |Decimal(n)| >= 2
  {
    if n >= 10 {
      DecimalLength(n / 10);
    }
  }

  /** A line that starts with a digit is context, read as it is. */
  lemma DigitsAreContext(line: string)
    requires line != "" && IsDigit(line[0])
    ensures
      var sep := FindSeparator(line, 0);
      (sep.None? || ParseU32(Trim(line[..sep.value])).None?) ==> ParseLine(line) == RawLine(ContextLine, None, line)
  {
  }

  /** How any row is read: within 32 bits by its marker and content, beyond them as a context line that
      starts with the number. */
  lemma ReadRowIs(row: Row)
    requires IsBodyKind(row.kind)
    ensures row.number < U32_LIMIT ==> ReadRow(row) == ParseMarked(row.kind, Some(row.number), StripCr(row.content))
    ensures row.number >= U32_LIMIT ==>
              && ReadRow(row).kind.ContextLine? && |ReadRow(row).content| > |row.content|
              && IsDigit(ReadRow(row).content[0])
  {
    var rest := [Marker(row.kind)] + StripCr(row.content);
    var line := PadNumber(row.number) + " | " + rest;
    StripPrinted(row);
    if row.number < U32_LIMIT {
      ParseMarkedText(row, StripCr(row.content));
    } else {
      ParseNumbered(row.number, rest);
      DecimalLength(row.number);
      assert Spaces(0) + Decimal(row.number) == Decimal(row.number);
      assert line[0] == Decimal(row.number)[0];
      DigitsAreContext(line);
    }
  }

  lemma RowRoundTrip(row: Row)
    requires IsBodyKind(row.kind)
    ensures ReadRow(row) == AsRaw(row) <==> Recoverable(row)
  {
    ReadRowIs(row);
  }
}
