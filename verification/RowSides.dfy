/** Which lines of the two files the rows of a rendering show once they are read back, recoverable or not. */
module RowSides {
  import opened Options
  import opened DiffText

  // ----- the two sides --------------------------------------------------------------------------------

  /** The contents of the context and removed lines. */
  function OldSide(raw: seq<RawLine>): seq<string> {
    if raw == [] then []
    else if raw[0].kind.ContextLine? || raw[0].kind.RemovedLine? then [raw[0].content] + OldSide(raw[1..])
    else OldSide(raw[1..])
  }

  /** The contents of the context and added lines. */
  function NewSide(raw: seq<RawLine>): seq<string> {
    if raw == [] then []
    else if raw[0].kind.ContextLine? || raw[0].kind.AddedLine? then [raw[0].content] + NewSide(raw[1..])
    else NewSide(raw[1..])
  }

  function SideOf(raw: seq<RawLine>, left: bool): seq<string> {
    if left then OldSide(raw) else NewSide(raw)
  }

  predicate Shows(kind: LineKind, left: bool) {
    kind.ContextLine? || (if left then kind.RemovedLine? else kind.AddedLine?)
  }

  lemma SideCons(a: RawLine, raw: seq<RawLine>, left: bool)
    ensures SideOf([a] + raw, left) == (if Shows(a.kind, left) then [a.content] else []) + SideOf(raw, left)
  {
    assert ([a] + raw)[0] == a && ([a] + raw)[1..] == raw;
  }

  lemma {:induction false} SidesAppend(a: seq<RawLine>, b: seq<RawLine>)
    ensures OldSide(a + b) == OldSide(a) + OldSide(b) && NewSide(a + b) == NewSide(a) + NewSide(b)
  {
    if a == [] {
      assert a + b == b;
    } else {
      assert (a + b)[0] == a[0] && (a + b)[1..] == a[1..] + b;
      SidesAppend(a[1..], b);
    }
  }

  // ----- rows as they are meant and as they are read --------------------------------------------------

  predicate BodyRows(rows: seq<Row>) {
    rows == [] || (IsBodyKind(rows[0].kind) && BodyRows(rows[1..]))
  }

  function RawsOf(rows: seq<Row>): seq<RawLine> {
    if rows == [] then [] else [AsRaw(rows[0])] + RawsOf(rows[1..])
  }

  function ReadRows(rows: seq<Row>): seq<RawLine> {
    if rows == [] then [] else [ReadRow(rows[0])] + ReadRows(rows[1..])
  }

  /** What a row shows on one side, as it is meant and as it is read. */
  function Meant(row: Row, left: bool): seq<string> {
    if Shows(row.kind, left) then [row.content] else []
  }

  function Seen(row: Row, left: bool): seq<string> {
    if Shows(ReadRow(row).kind, left) then [ReadRow(row).content] else []
  }

  lemma {:induction false} ReadIsMeantIff(row: Row)
    requires IsBodyKind(row.kind)
    ensures Seen(row, true) == Meant(row, true) && Seen(row, false) == Meant(row, false) <==> Recoverable(row)
  {
    RowRoundTrip(row);
    ReadRowIs(row);
  }

  // ----- a row that is lost is missed -----------------------------------------------------------------

  /** The start of a content that makes the row of this side look like a header. */
  function Mark(left: bool): string {
    if left then "-- " else "++ "
  }

  function Marked(lines: seq<string>, mark: string): nat {
    if lines == [] then 0 else (if mark <= lines[0] then 1 else 0) + Marked(lines[1..], mark)
  }

  lemma {:induction false} MarkedAppend(a: seq<string>, b: seq<string>, mark: string)
    ensures Marked(a + b, mark) == Marked(a, mark) + Marked(b, mark)
  {
    if a == [] {
      assert a + b == b;
    } else {
      assert (a + b)[0] == a[0] && (a + b)[1..] == a[1..] + b;
      MarkedAppend(a[1..], b, mark);
    }
  }

  /** The row is shown on this side, and read as nothing there. */
  predicate Lost(row: Row, left: bool) {
    Meant(row, left) != [] && Seen(row, left) == []
  }

  predicate NoneLost(rows: seq<Row>, left: bool) {
    rows == [] || (!Lost(rows[0], left) && NoneLost(rows[1..], left))
  }

  /** Reading never adds a marked line, and drops one with every row that it loses. */
  lemma RowMarks(row: Row, left: bool)
    requires IsBodyKind(row.kind)
    ensures Marked(Seen(row, left), Mark(left)) <= Marked(Meant(row, left), Mark(left))
    ensures Lost(row, left) ==> Marked(Seen(row, left), Mark(left)) < Marked(Meant(row, left), Mark(left))
  {
    ReadRowIs(row);
    StripKeepsMark(row.content, Mark(left));
    OneMarked(row.content, Mark(left));
    OneMarked(ReadRow(row).content, Mark(left));
  }

  lemma OneMarked(line: string, mark: string)
    ensures Marked([line], mark) == (if mark <= line then 1 else 0) && Marked([], mark) == 0
  {
    assert [line][1..] == [];
  }

  lemma StripKeepsMark(line: string, mark: string)
    requires |mark| == 3 && mark[2] == ' '
    ensures mark <= StripCr(line) <==> mark <= line
  {
    if mark <= line && StripCr(line) != line {
      assert |line| > 3 by {
        assert line[2] == mark[2];
      }
    }
  }

  lemma {:induction false} NoMarkedRowLost(rows: seq<Row>, left: bool)
    requires BodyRows(rows)
    ensures Marked(SideOf(ReadRows(rows), left), Mark(left)) <= Marked(SideOf(RawsOf(rows), left), Mark(left))
    ensures Marked(SideOf(ReadRows(rows), left), Mark(left)) == Marked(SideOf(RawsOf(rows), left), Mark(left))
            ==> NoneLost(rows, left)
  {
    if rows != [] {
      NoMarkedRowLost(rows[1..], left);
      RowMarks(rows[0], left);
      SideCons(ReadRow(rows[0]), ReadRows(rows[1..]), left);
      SideCons(AsRaw(rows[0]), RawsOf(rows[1..]), left);
      MarkedAppend(Seen(rows[0], left), SideOf(ReadRows(rows[1..]), left), Mark(left));
      MarkedAppend(Meant(rows[0], left), SideOf(RawsOf(rows[1..]), left), Mark(left));
    }
  }

  // ----- the sides are right only if every row is ------------------------------------------------------

  predicate AllMeant(rows: seq<Row>, left: bool) {
    rows == [] || (Seen(rows[0], left) == Meant(rows[0], left) && AllMeant(rows[1..], left))
  }

  lemma {:induction false} NoFewerLines(rows: seq<Row>, left: bool)
    requires NoneLost(rows, left)
    ensures |SideOf(ReadRows(rows), left)| >= |SideOf(RawsOf(rows), left)|
  {
    if rows != [] {
      NoFewerLines(rows[1..], left);
      SideCons(ReadRow(rows[0]), ReadRows(rows[1..]), left);
      SideCons(AsRaw(rows[0]), RawsOf(rows[1..]), left);
    }
  }

  lemma EqualParts(a: seq<string>, s: seq<string>, b: seq<string>, t: seq<string>)
    requires a + s == b + t && |a| == |b|
    ensures a == b && s == t
  {
    assert (a + s)[..|a|] == a && (b + t)[..|b|] == b;
    assert (a + s)[|a|..] == s && (b + t)[|b|..] == t;
  }

  lemma {:induction false} SameLinesSameRows(rows: seq<Row>, left: bool)
    requires NoneLost(rows, left) && SideOf(ReadRows(rows), left) == SideOf(RawsOf(rows), left)
    ensures AllMeant(rows, left)
  {
    if rows != [] {
      var s, t := SideOf(ReadRows(rows[1..]), left), SideOf(RawsOf(rows[1..]), left);
      SideCons(ReadRow(rows[0]), ReadRows(rows[1..]), left);
      SideCons(AsRaw(rows[0]), RawsOf(rows[1..]), left);
      NoFewerLines(rows[1..], left);
      assert |Seen(rows[0], left) + s| == |Meant(rows[0], left) + t|;
      EqualParts(Seen(rows[0], left), s, Meant(rows[0], left), t);
      SameLinesSameRows(rows[1..], left);
    }
  }

  lemma {:induction false} MeantRowsMeantSide(rows: seq<Row>, left: bool)
    requires AllMeant(rows, left)
    ensures SideOf(ReadRows(rows), left) == SideOf(RawsOf(rows), left)
  {
    if rows != [] {
      MeantRowsMeantSide(rows[1..], left);
      SideCons(ReadRow(rows[0]), ReadRows(rows[1..]), left);
      SideCons(AsRaw(rows[0]), RawsOf(rows[1..]), left);
    }
  }

  lemma SideIsMeantIff(rows: seq<Row>, left: bool)
    requires BodyRows(rows)
    ensures SideOf(ReadRows(rows), left) == SideOf(RawsOf(rows), left) <==> AllMeant(rows, left)
  {
    if SideOf(ReadRows(rows), left) == SideOf(RawsOf(rows), left) {
      NoMarkedRowLost(rows, left);
      SameLinesSameRows(rows, left);
    } else if AllMeant(rows, left) {
      MeantRowsMeantSide(rows, left);
    }
  }

  predicate RowsRecoverable(rows: seq<Row>) {
    rows == [] || (Recoverable(rows[0]) && RowsRecoverable(rows[1..]))
  }

  lemma {:induction false} AllMeantIff(rows: seq<Row>)
    requires BodyRows(rows)
    ensures AllMeant(rows, true) && AllMeant(rows, false) <==> RowsRecoverable(rows)
  {
    if rows != [] {
      AllMeantIff(rows[1..]);
      ReadIsMeantIff(rows[0]);
    }
  }

  /** Rows that are printed and read show the lines of both files that they are about if and only if every
      single row is recoverable: what one row loses or adds, no other row makes up for. */
  lemma SidesReadIffRecoverable(rows: seq<Row>)
    requires BodyRows(rows)
    ensures OldSide(ReadRows(rows)) == OldSide(RawsOf(rows)) && NewSide(ReadRows(rows)) == NewSide(RawsOf(rows))
            <==> RowsRecoverable(rows)
  {
    SideIsMeantIff(rows, true);
    SideIsMeantIff(rows, false);
    AllMeantIff(rows);
  }

  // ----- lines in front -------------------------------------------------------------------------------

  predicate NumbersFit(rows: seq<Row>) {
    rows == [] || (rows[0].number < U32_LIMIT && NumbersFit(rows[1..]))
  }

  /** No removed or added line that the dashboard reads looks like a header. */
  predicate Unmarked(raw: seq<RawLine>) {
    raw == [] ||
    ((raw[0].kind.RemovedLine? ==> !("-- " <= raw[0].content))
     && (raw[0].kind.AddedLine? ==> !("++ " <= raw[0].content))
     && Unmarked(raw[1..]))
  }

  lemma UnmarkedBy(mark: char, rest: string, dashes: string)
    requires [mark] <= rest && !([mark] + dashes <= rest)
    ensures !(dashes <= rest[1..])
  {
    assert rest == [mark] + rest[1..];
    PrefixCons(mark, dashes, rest[1..]);
  }

  lemma ParsedUnmarked(line: string)
    ensures ParseLine(line).kind.RemovedLine? ==> !("-- " <= ParseLine(line).content)
    ensures ParseLine(line).kind.AddedLine? ==> !("++ " <= ParseLine(line).content)
  {
    var sep := FindSeparator(line, 0);
    var rest := if sep.Some? && ParseU32(Trim(line[..sep.value])).Some? then line[sep.value + 3..] else line;
    assert ['-'] + "-- " == "--- " && ['+'] + "++ " == "+++ ";
    if !IsHeaderText(rest) {
      if "+" <= rest {
        UnmarkedBy('+', rest, "++ ");
      } else if "-" <= rest {
        UnmarkedBy('-', rest, "-- ");
      }
    }
  }

  /** Reading keeps the lines of a side that carry the mark of the other side. */
  lemma {:induction false} OtherMarksStay(rows: seq<Row>, left: bool)
    requires BodyRows(rows) && NumbersFit(rows)
    ensures Marked(SideOf(ReadRows(rows), left), Mark(!left)) == Marked(SideOf(RawsOf(rows), left), Mark(!left))
  {
    if rows != [] {
      OtherMarksStay(rows[1..], left);
      OtherMarkStays(rows[0], left);
      SideCons(ReadRow(rows[0]), ReadRows(rows[1..]), left);
      SideCons(AsRaw(rows[0]), RawsOf(rows[1..]), left);
      MarkedAppend(Seen(rows[0], left), SideOf(ReadRows(rows[1..]), left), Mark(!left));
      MarkedAppend(Meant(rows[0], left), SideOf(RawsOf(rows[1..]), left), Mark(!left));
    }
  }

  lemma OtherMarkStays(row: Row, left: bool)
    requires IsBodyKind(row.kind) && row.number < U32_LIMIT
    ensures Marked(Seen(row, left), Mark(!left)) == Marked(Meant(row, left), Mark(!left))
  {
    ReadRowIs(row);
    StripKeepsMark(row.content, Mark(left));
    StripKeepsMark(row.content, Mark(!left));
    OneMarked(row.content, Mark(!left));
    OneMarked(ReadRow(row).content, Mark(!left));
  }

  /** A line in front with the mark of its side is context, so it shows on the other side too. */
  lemma {:induction false} FrontMarks(front: seq<RawLine>, left: bool)
    requires Unmarked(front)
    ensures Marked(SideOf(front, left), Mark(left)) <= Marked(SideOf(front, !left), Mark(left))
  {
    if front != [] {
      FrontMarks(front[1..], left);
      assert front == [front[0]] + front[1..];
      SideCons(front[0], front[1..], left);
      SideCons(front[0], front[1..], !left);
    }
  }

  lemma FrontIsEmpty(front: seq<RawLine>, rows: seq<Row>, left: bool)
    requires BodyRows(rows) && NumbersFit(rows) && Unmarked(front)
    requires SideOf(front, left) + SideOf(ReadRows(rows), left) == SideOf(RawsOf(rows), left)
    requires SideOf(front, !left) + SideOf(ReadRows(rows), !left) == SideOf(RawsOf(rows), !left)
    ensures SideOf(front, left) == []
  {
    MarkedAppend(SideOf(front, left), SideOf(ReadRows(rows), left), Mark(left));
    MarkedAppend(SideOf(front, !left), SideOf(ReadRows(rows), !left), Mark(left));
    OtherMarksStay(rows, !left);
    FrontMarks(front, left);
    NoMarkedRowLost(rows, left);
    NoFewerLines(rows, left);
    assert |SideOf(front, left) + SideOf(ReadRows(rows), left)| == |SideOf(RawsOf(rows), left)|;
  }

  /** With numbers that fit 32 bits, lines in front do not make up for lost rows either. */
  lemma SidesWithFrontIff(front: seq<RawLine>, rows: seq<Row>)
    requires BodyRows(rows) && NumbersFit(rows) && Unmarked(front)
    ensures OldSide(front) + OldSide(ReadRows(rows)) == OldSide(RawsOf(rows))
            && NewSide(front) + NewSide(ReadRows(rows)) == NewSide(RawsOf(rows))
            <==> OldSide(front) == [] && NewSide(front) == [] && RowsRecoverable(rows)
  {
    SidesReadIffRecoverable(rows);
    assert [] + OldSide(ReadRows(rows)) == OldSide(ReadRows(rows));
    assert [] + NewSide(ReadRows(rows)) == NewSide(ReadRows(rows));
    if OldSide(front) + OldSide(ReadRows(rows)) == OldSide(RawsOf(rows))
       && NewSide(front) + NewSide(ReadRows(rows)) == NewSide(RawsOf(rows)) {
      FrontIsEmpty(front, rows, true);
      FrontIsEmpty(front, rows, false);
    }
  }
}
