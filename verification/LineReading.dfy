/** What the dashboard's parser (web/dashboard/src/components/diff_viewer.rs) makes of any line, from whatever
    program it comes. */
module LineReading {
  import opened Options
  import opened DiffText
  import opened DiffViewer

  // ----- one line -------------------------------------------------------------------------------------

  /** The kind, the number and the content that a text stands for, by its first characters. */
  predicate StandsFor(r: RawLine, number: Option<nat>, text: string) {
    && (r.kind.Header? <==> "diff " <= text || "index " <= text || "--- " <= text || "+++ " <= text)
    && (r.kind.HunkMeta? <==> "@@" <= text)
    && (r.kind.AddedLine? <==> "+" <= text && !("+++ " <= text))
    && (r.kind.RemovedLine? <==> "-" <= text && !("--- " <= text))
    && (if r.kind.Header? || r.kind.HunkMeta? then r.number == None && r.content == text
        else
          r.number == number
          && (if r.kind.AddedLine? then "+" + r.content == text
              else if r.kind.RemovedLine? then "-" + r.content == text
              else if |text| > 1 && text[0] == ' ' then " " + r.content == text
              else r.content == text))
  }

  predicate Blank(text: string) {
    forall k :: 0 <= k < |text| ==> text[k] == ' ' || text[k] == '\t'
  }

  lemma {:induction false} TrimStartBlank(before: string, text: string)
    requires Blank(before) && text != "" && !IsWhitespace(text[0])
    ensures TrimStart(before + text) == text
  {
    if before == "" {
      assert before + text == text;
    } else {
      assert (before + text)[0] == before[0] && (before + text)[1..] == before[1..] + text;
      TrimStartBlank(before[1..], text);
    }
  }

  lemma {:induction false} TrimEndBlank(text: string, after: string)
    requires Blank(after) && text != "" && !IsWhitespace(text[|text| - 1])
    ensures TrimEnd(text + after) == text
    decreases |after|
  {
    if after == "" {
      assert text + after == text;
    } else {
      var n := |after| - 1;
      var all := text + after;
      assert all[|all| - 1] == after[n] && all[..|all| - 1] == text + after[..n];
      TrimEndBlank(text, after[..n]);
    }
  }

  lemma SignedNumberRead(sign: string, n: nat)
    requires sign == "" || sign == "+"
    ensures ParseU32(sign + Decimal(n)) == if n < U32_LIMIT then Some(n) else None
  {
    ParseDecimal(n);
    DecimalRoundTrip(n);
    if sign == "" {
      assert sign + Decimal(n) == Decimal(n);
    } else {
      assert (sign + Decimal(n))[1..] == Decimal(n);
    }
  }

  lemma NumberAround(before: string, sign: string, n: nat, after: string)
    requires Blank(before) && Blank(after) && (sign == "" || sign == "+")
    ensures Trim(before + (sign + Decimal(n) + after)) == sign + Decimal(n)
  {
    var number := sign + Decimal(n);
    assert number[|number| - 1] == Decimal(n)[|Decimal(n)| - 1];
    assert number[0] == (if sign == "" then Decimal(n)[0] else '+');
    assert (number + after)[0] == number[0];
    TrimStartBlank(before, number + after);
    TrimEndBlank(number, after);
  }

  lemma Classified(line: string, number: Option<nat>, text: string)
    requires
      var sep := FindSeparator(line, 0);
      number == (if sep.Some? then ParseU32(Trim(line[..sep.value])) else None)
      && text == (if number.Some? then line[sep.value + 3..] else line)
    ensures StandsFor(ParseLine(line), number, text)
  {
    assert text != "" ==> text == [text[0]] + text[1..];
  }

  /** A number with blanks or tabs around it and perhaps a plus sign, a separator and a text: the line has the
      number if it fits 32 bits, and stands for the text. Otherwise it has none and stands for the whole line. */
  lemma NumberedLineRead(before: string, sign: string, n: nat, after: string, text: string)
    requires Blank(before) && Blank(after) && (sign == "" || sign == "+")
    ensures
      var line := before + (sign + Decimal(n) + after) + " | " + text;
      StandsFor(ParseLine(line), if n < 4_294_967_296 then Some(n) else None,
                if n < 4_294_967_296 then text else line)
  {
    var num := before + (sign + Decimal(n) + after);
    var line := num + " | " + text;
    forall i | 0 <= i < |num| ensures num[i] != '|' {
      if i >= |before| {
        assert num[i] == (sign + Decimal(n) + after)[i - |before|];
      }
    }
    SeparatorAfterNumber(num, text);
    NumberAround(before, sign, n, after);
    SignedNumberRead(sign, n);
    assert line[..|num|] == num && line[|num| + 3..] == text;
    Classified(line, if n < U32_LIMIT then Some(n) else None, if n < U32_LIMIT then text else line);
  }

  lemma SeparatorShows(line: string, i: nat)
    requires SeparatorAt(line, i)
    ensures " | " <= line[i..]
  {
    assert line[i..][..3] == " | ";
  }

  /** A line without a separator has no number and stands for itself. */
  lemma PlainLineRead(line: string)
    requires forall i :: 0 <= i <= |line| ==> !(" | " <= line[i..])
    ensures StandsFor(ParseLine(line), None, line)
  {
    var sep := FindSeparator(line, 0);
    if sep.Some? {
      SeparatorShows(line, sep.value);
      assert false;
    }
    Classified(line, None, line);
  }

  // ----- the format -----------------------------------------------------------------------------------

  lemma {:induction false} ContainsIff(text: string, part: string)
    ensures Contains(text, part) <==> exists i :: 0 <= i <= |text| && part <= text[i..]
  {
    assert text[0..] == text;
    if text != "" {
      ContainsIff(text[1..], part);
      if i :| 0 <= i <= |text[1..]| && part <= text[1..][i..] {
        assert text[1..][i..] == text[i + 1..];
      }
      if i :| 0 < i <= |text| && part <= text[i..] {
        assert text[1..][i - 1..] == text[i..];
      }
    }
  }

  /** A line that starts with "previous" and holds a bar and "current", apart from whitespace around it. */
  predicate HasLabels(line: string) {
    var text := Trim(line);
    && "previous" <= text && (exists i :: 0 <= i < |text| && text[i] == '|')
    && (exists i :: 0 <= i <= |text| && "current" <= text[i..])
  }

  lemma LabelsIff(line: string)
    ensures LooksSideBySide(line) <==> HasLabels(line)
  {
    var text := Trim(line);
    ContainsIff(text, "current");
    assert '|' in text <==> exists i :: 0 <= i < |text| && text[i] == '|';
  }

  /** Some line of the text has the labels of two columns. */
  predicate ShowsLabels(lines: seq<string>) {
    exists k :: 0 <= k < |lines| && HasLabels(lines[k])
  }

  lemma ShowsLabelsIff(lines: seq<string>)
    ensures ShowsLabels(lines) <==> exists k :: 0 <= k < |lines| && LooksSideBySide(lines[k])
  {
    forall k | 0 <= k < |lines| ensures LooksSideBySide(lines[k]) <==> HasLabels(lines[k]) {
      LabelsIff(lines[k]);
    }
  }

  predicate HasPrefix(text: string) {
    PrefixOf(Unified) <= text || PrefixOf(Context) <= text || PrefixOf(FullFile) <= text
    || PrefixOf(SideBySide) <= text || PrefixOf(Raw) <= text
  }

  /** A text without a known prefix is taken as it is: as two columns if and only if some line has the labels of
      two columns, and as a unified diff otherwise. */
  lemma FormatWithoutPrefix(text: string)
    requires !HasPrefix(text)
    ensures ParseFormatPrefix(text) == (if ShowsLabels(LinesOf(text)) then (SideBySide, text) else (Unified, text))
  {
    ShowsLabelsIff(LinesOf(text));
  }
}
