/** The two queries over change events (crates/config-storage/src/repositories/change_events.rs: `list` and
    `count`), as clauses whose placeholders are numbers, and the values bound in order. */
module Filters {
  import opened Numbers
  import opened Options

  datatype Filters = Filters(host: Option<string>, pathPrefix: Option<string>, filename: Option<string>,
                             author: Option<string>, severity: Option<string>, since: Option<int>, until: Option<int>,
                             excluded: seq<string>)

  /** The columns the filters look at; a nullable column may have no value. */
  datatype EventRow = EventRow(id: nat, host: string, path: Option<string>, author: Option<string>, severity: string,
                               kind: string, time: int)

  datatype Value = Text(text: string) | Time(time: int) | Number(number: int)

  datatype Test = HostIs | PathLike | NameLike | AuthorIs | SeverityIs | NotBefore | NotAfter | KindNotIn

  /** A condition with the numbers of its placeholders, counted from 1. */
  datatype Clause = Clause(test: Test, params: seq<nat>)

  datatype Statement = Statement(clauses: seq<Clause>, binds: seq<Value>)

  /** One condition and the values it is about. */
  datatype Part = Part(test: Test, values: seq<Value>)

  function PathPattern(prefix: string): string {
    prefix + "%"
  }

  function NamePattern(part: string): string {
    "%" + part + "%"
  }

  function TextPart(test: Test, text: Option<string>): seq<Part> {
    if text.Some? then [Part(test, [Text(text.value)])] else []
  }

  function TimePart(test: Test, time: Option<int>): seq<Part> {
    if time.Some? then [Part(test, [Time(time.value)])] else []
  }

  function Texts(kinds: seq<string>): seq<Value> {
    if kinds == [] then [] else [Text(kinds[0])] + Texts(kinds[1..])
  }

  function KindPart(kinds: seq<string>): seq<Part> {
    if kinds == [] then [] else [Part(KindNotIn, Texts(kinds))]
  }

  function Mapped(text: Option<string>, f: string -> string): Option<string> {
    if text.Some? then Some(f(text.value)) else None
  }

  /** The conditions on one value each, in the order both queries use. */
  function SingleParts(f: Filters): seq<Part> {
    TextPart(HostIs, f.host) + TextPart(PathLike, Mapped(f.pathPrefix, PathPattern))
    + TextPart(NameLike, Mapped(f.filename, NamePattern)) + TextPart(AuthorIs, f.author)
    + TextPart(SeverityIs, f.severity) + TimePart(NotBefore, f.since) + TimePart(NotAfter, f.until)
  }

  /** All conditions of a filter set; the excluded kinds come last. */
  function Parts(f: Filters): seq<Part> {
    SingleParts(f) + KindPart(f.excluded)
  }

  function From(first: nat, count: nat): seq<nat>
    decreases count
  {
    if count == 0 then [] else [first] + From(first + 1, count - 1)
  }

  /** The clauses of the parts, numbered from `first` on. */
  function Numbered(parts: seq<Part>, first: nat): seq<Clause> {
    if parts == [] then []
    else [Clause(parts[0].test, From(first, |parts[0].values|))] + Numbered(parts[1..], first + |parts[0].values|)
  }

  function Values(parts: seq<Part>): seq<Value> {
    if parts == [] then [] else parts[0].values + Values(parts[1..])
  }

  lemma {:induction false} ValuesAppend(a: seq<Part>, b: seq<Part>)
    ensures Values(a + b) == Values(a) + Values(b)
  {
    if a == [] {
      assert a + b == b;
    } else {
      assert (a + b)[0] == a[0] && (a + b)[1..] == a[1..] + b;
      ValuesAppend(a[1..], b);
    }
  }

  lemma {:induction false} NumberedAppend(a: seq<Part>, b: seq<Part>, first: nat, middle: nat)
    requires middle == first + |Values(a)|
    ensures Numbered(a + b, first) == Numbered(a, first) + Numbered(b, middle)
    decreases |a|
  {
    if a == [] {
      assert a + b == b;
    } else {
      assert (a + b)[0] == a[0] && (a + b)[1..] == a[1..] + b;
      NumberedAppend(a[1..], b, first + |a[0].values|, middle);
    }
  }

  lemma NumberedOne(part: Part, first: nat)
    ensures Numbered([part], first) == [Clause(part.test, From(first, |part.values|))] && Values([part]) == part.values
  {
    assert [part][1..] == [];
    assert part.values + [] == part.values;
  }

  // ----- the builders -------------------------------------------------------------------------------

  /** The clauses so far and the last placeholder used, for the parts so far. */
  predicate Built(clauses: seq<Clause>, paramIdx: nat, parts: seq<Part>) {
    clauses == Numbered(parts, 1) && paramIdx == |Values(parts)|
  }

  lemma BuiltOneMore(clauses: seq<Clause>, paramIdx: nat, parts: seq<Part>, part: Part)
    requires Built(clauses, paramIdx, parts) && |part.values| == 1
    ensures Built(clauses + [Clause(part.test, [paramIdx + 1])], paramIdx + 1, parts + [part])
  {
    NumberedAppend(parts, [part], 1, paramIdx + 1);
    ValuesAppend(parts, [part]);
    NumberedOne(part, paramIdx + 1);
    FromSnoc(paramIdx + 1, 0);
    assert From(paramIdx + 1, 0) + [paramIdx + 1] == [paramIdx + 1];
  }

  method AddText(clauses: seq<Clause>, paramIdx: nat, test: Test, text: Option<string>, ghost parts: seq<Part>)
    returns (more: seq<Clause>, idx: nat, ghost moreParts: seq<Part>)
    requires Built(clauses, paramIdx, parts)
    ensures moreParts == parts + TextPart(test, text) && Built(more, idx, parts + TextPart(test, text))
  {
    more, idx, moreParts := clauses, paramIdx, parts + TextPart(test, text);
    if text.Some? {
      idx := idx + 1;
      more := more + [Clause(test, [idx])];
      BuiltOneMore(clauses, paramIdx, parts, Part(test, [Text(text.value)]));
    } else {
      assert moreParts == parts;
    }
  }

  method AddTime(clauses: seq<Clause>, paramIdx: nat, test: Test, time: Option<int>, ghost parts: seq<Part>)
    returns (more: seq<Clause>, idx: nat, ghost moreParts: seq<Part>)
    requires Built(clauses, paramIdx, parts)
    ensures moreParts == parts + TimePart(test, time) && Built(more, idx, parts + TimePart(test, time))
  {
    more, idx, moreParts := clauses, paramIdx, parts + TimePart(test, time);
    if time.Some? {
      idx := idx + 1;
      more := more + [Clause(test, [idx])];
      BuiltOneMore(clauses, paramIdx, parts, Part(test, [Time(time.value)]));
    } else {
      assert moreParts == parts;
    }
  }

  lemma {:induction false} FromSnoc(first: nat, count: nat)
    ensures From(first, count + 1) == From(first, count) + [first + count]
    decreases count
  {
    if count > 0 {
      FromSnoc(first + 1, count - 1);
    }
  }

  lemma {:induction false} TextsLength(kinds: seq<string>)
    ensures |Texts(kinds)| == |kinds|
  {
    if kinds != [] {
      TextsLength(kinds[1..]);
    }
  }

  method Placeholders(start: nat, count: nat) returns (params: seq<nat>)
    ensures params == From(start, count)
  {
    params := [];
    for i := 0 to count
      invariant params == From(start, i)
    {
      FromSnoc(start, i);
      params := params + [start + i];
    }
  }

  /** The seven single conditions, which both queries write the same way. */
  method SingleClauses(f: Filters) returns (clauses: seq<Clause>, paramIdx: nat)
    ensures Built(clauses, paramIdx, SingleParts(f))
  {
    ghost var parts: seq<Part> := [];
    clauses, paramIdx := [], 0;
    clauses, paramIdx, parts := AddText(clauses, paramIdx, HostIs, f.host, parts);
    assert parts == TextPart(HostIs, f.host);
    clauses, paramIdx, parts := AddText(clauses, paramIdx, PathLike, Mapped(f.pathPrefix, PathPattern), parts);
    clauses, paramIdx, parts := AddText(clauses, paramIdx, NameLike, Mapped(f.filename, NamePattern), parts);
    clauses, paramIdx, parts := AddText(clauses, paramIdx, AuthorIs, f.author, parts);
    clauses, paramIdx, parts := AddText(clauses, paramIdx, SeverityIs, f.severity, parts);
    clauses, paramIdx, parts := AddTime(clauses, paramIdx, NotBefore, f.since, parts);
    clauses, paramIdx, parts := AddTime(clauses, paramIdx, NotAfter, f.until, parts);
  }

  lemma KindClause(parts: seq<Part>, kinds: seq<string>)
    requires kinds != []
    ensures Numbered(parts + KindPart(kinds), 1)
         == Numbered(parts, 1) + [Clause(KindNotIn, From(|Values(parts)| + 1, |kinds|))]
    ensures |Values(parts + KindPart(kinds))| == |Values(parts)| + |kinds|
  {
    NumberedAppend(parts, KindPart(kinds), 1, 1 + |Values(parts)|);
    ValuesAppend(parts, KindPart(kinds));
    NumberedOne(Part(KindNotIn, Texts(kinds)), |Values(parts)| + 1);
    TextsLength(kinds);
  }

  method BindText(binds: seq<Value>, test: Test, text: Option<string>, ghost parts: seq<Part>)
    returns (more: seq<Value>, ghost moreParts: seq<Part>)
    requires binds == Values(parts)
    ensures moreParts == parts + TextPart(test, text) && more == Values(parts + TextPart(test, text))
  {
    more, moreParts := binds, parts + TextPart(test, text);
    ValuesAppend(parts, TextPart(test, text));
    if text.Some? {
      more := more + [Text(text.value)];
      NumberedOne(Part(test, [Text(text.value)]), 1);
    }
  }

  method BindTime(binds: seq<Value>, test: Test, time: Option<int>, ghost parts: seq<Part>)
    returns (more: seq<Value>, ghost moreParts: seq<Part>)
    requires binds == Values(parts)
    ensures moreParts == parts + TimePart(test, time) && more == Values(parts + TimePart(test, time))
  {
    more, moreParts := binds, parts + TimePart(test, time);
    ValuesAppend(parts, TimePart(test, time));
    if time.Some? {
      more := more + [Time(time.value)];
      NumberedOne(Part(test, [Time(time.value)]), 1);
    }
  }

  lemma {:induction false} TextsSnoc(kinds: seq<string>, kind: string)
    ensures Texts(kinds + [kind]) == Texts(kinds) + [Text(kind)]
  {
    if kinds == [] {
      assert kinds + [kind] == [kind] && [kind][1..] == [];
    } else {
      assert (kinds + [kind])[0] == kinds[0] && (kinds + [kind])[1..] == kinds[1..] + [kind];
      TextsSnoc(kinds[1..], kind);
    }
  }

  method BindKinds(binds: seq<Value>, kinds: seq<string>, ghost parts: seq<Part>) returns (more: seq<Value>)
    requires binds == Values(parts)
    ensures more == Values(parts + KindPart(kinds))
  {
    more := binds;
    for i := 0 to |kinds|
      invariant more == binds + Texts(kinds[..i])
    {
      assert kinds[..i + 1] == kinds[..i] + [kinds[i]];
      TextsSnoc(kinds[..i], kinds[i]);
      more := more + [Text(kinds[i])];
    }
    assert kinds[..|kinds|] == kinds;
    ValuesAppend(parts, KindPart(kinds));
    NumberedOne(Part(KindNotIn, Texts(kinds)), 1);
  }

  method BindAll(f: Filters) returns (binds: seq<Value>)
    ensures binds == Values(Parts(f))
  {
    ghost var parts: seq<Part> := [];
    binds := [];
    binds, parts := BindText(binds, HostIs, f.host, parts);
    assert parts == TextPart(HostIs, f.host);
    binds, parts := BindText(binds, PathLike, Mapped(f.pathPrefix, PathPattern), parts);
    binds, parts := BindText(binds, NameLike, Mapped(f.filename, NamePattern), parts);
    binds, parts := BindText(binds, AuthorIs, f.author, parts);
    binds, parts := BindText(binds, SeverityIs, f.severity, parts);
    binds, parts := BindTime(binds, NotBefore, f.since, parts);
    binds, parts := BindTime(binds, NotAfter, f.until, parts);
    binds := BindKinds(binds, f.excluded, parts);
  }

  method BuildList(f: Filters, limit: int, offset: int) returns (q: Statement, limitIdx: nat, offsetIdx: nat)
    ensures q == Statement(Numbered(Parts(f), 1), Values(Parts(f)) + [Number(limit), Number(offset)])
    ensures limitIdx == |q.binds| - 1 && offsetIdx == |q.binds|
  {
    var clauses, paramIdx := SingleClauses(f);
    ghost var parts := SingleParts(f);
    if f.excluded != [] {
      KindClause(parts, f.excluded);
      paramIdx := paramIdx + 1;
      var params := Placeholders(paramIdx, |f.excluded|);
      clauses := clauses + [Clause(KindNotIn, params)];
      paramIdx := paramIdx + |f.excluded| - 1;
    } else {
      assert parts + [] == parts;
    }
    limitIdx := paramIdx + 1;
    offsetIdx := limitIdx + 1;
    var binds := BindAll(f);
    q := Statement(clauses, binds + [Number(limit), Number(offset)]);
  }

  method BuildCount(f: Filters) returns (q: Statement)
    ensures q == Statement(Numbered(Parts(f), 1), Values(Parts(f)))
  {
    var clauses, paramIdx := SingleClauses(f);
    ghost var parts := SingleParts(f);
    if f.excluded != [] {
      KindClause(parts, f.excluded);
      var params := Placeholders(paramIdx + 1, |f.excluded|);
      clauses := clauses + [Clause(KindNotIn, params)];
    } else {
      assert parts + [] == parts;
    }
    var binds := BindAll(f);
    q := Statement(clauses, binds);
  }

  // ----- what a statement selects -------------------------------------------------------------------

  /** SQL's LIKE: `%` stands for any text, `_` for one character, and a backslash quotes the next. */
  predicate Like(text: string, pattern: string)
    decreases |text| + |pattern|
  {
    if pattern == "" then text == ""
    else if pattern[0] == '%' then Like(text, pattern[1..]) || (text != "" && Like(text[1..], pattern))
    else if text == "" then false
    else if pattern[0] == '_' then Like(text[1..], pattern[1..])
    else if pattern[0] == '\\' && |pattern| > 1 then text[0] == pattern[1] && Like(text[1..], pattern[2..])
    else text[0] == pattern[0] && Like(text[1..], pattern[1..])
  }

  /** The part of a path after its last slash. */
  function LastName(path: string): string {
    if path == "" then "" else if path[|path| - 1] == '/' then "" else LastName(path[..|path| - 1]) + [path[|path| - 1]]
  }

  /** The file name of a path is what follows its last slash. */
  lemma {:induction false} LastNameIs(path: string, dir: string, name: string)
    requires '/' !in name && (path == name || path == dir + "/" + name)
    ensures LastName(path) == name
    decreases |name|
  {
    if name != "" {
      var n := |name| - 1;
      assert name == name[..n] + [name[n]] && path[|path| - 1] == name[n];
      assert path != name ==> path[..|path| - 1] == dir + "/" + name[..n];
      LastNameIs(path[..|path| - 1], dir, name[..n]);
    } else if path != "" {
      assert path[|path| - 1] == '/';
    }
  }

  /** A test on a row with the values of its placeholders; a missing column passes no test. */
  predicate Passes(row: EventRow, test: Test, values: seq<Value>) {
    if test.KindNotIn? then Text(row.kind) !in values
    else
      |values| == 1 &&
      match test
      case HostIs => values[0] == Text(row.host)
      case PathLike => row.path.Some? && values[0].Text? && Like(row.path.value, values[0].text)
      case NameLike => row.path.Some? && values[0].Text? && Like(LastName(row.path.value), values[0].text)
      case AuthorIs => row.author.Some? && values[0] == Text(row.author.value)
      case SeverityIs => values[0] == Text(row.severity)
      case NotBefore => values[0].Time? && row.time >= values[0].time
      case NotAfter => values[0].Time? && row.time <= values[0].time
  }

  function Bound(binds: seq<Value>, params: seq<nat>): seq<Value> {
    if params == [] then []
    else (if 1 <= params[0] <= |binds| then [binds[params[0] - 1]] else []) + Bound(binds, params[1..])
  }

  predicate Selects(clauses: seq<Clause>, binds: seq<Value>, row: EventRow) {
    clauses == [] || (Passes(row, clauses[0].test, Bound(binds, clauses[0].params))
                      && Selects(clauses[1..], binds, row))
  }

  /** The meaning of a filter set, said without placeholders. */
  predicate Matches(f: Filters, row: EventRow) {
    && (f.host.Some? ==> row.host == f.host.value)
    && (f.pathPrefix.Some? ==> row.path.Some? && Like(row.path.value, PathPattern(f.pathPrefix.value)))
    && (f.filename.Some? ==> row.path.Some? && Like(LastName(row.path.value), NamePattern(f.filename.value)))
    && (f.author.Some? ==> row.author == f.author)
    && (f.severity.Some? ==> row.severity == f.severity.value)
    && (f.since.Some? ==> row.time >= f.since.value)
    && (f.until.Some? ==> row.time <= f.until.value)
    && row.kind !in f.excluded
  }

  predicate PassesAll(parts: seq<Part>, row: EventRow) {
    parts == [] || (Passes(row, parts[0].test, parts[0].values) && PassesAll(parts[1..], row))
  }

  lemma {:induction false} BoundFrom(before: seq<Value>, values: seq<Value>, after: seq<Value>)
    ensures Bound(before + values + after, From(|before| + 1, |values|)) == values
    decreases |values|
  {
    if values != [] {
      assert before + values + after == (before + [values[0]]) + values[1..] + after;
      BoundFrom(before + [values[0]], values[1..], after);
      assert From(|before| + 1, |values|) == [|before| + 1] + From(|before| + 2, |values| - 1);
      assert ([|before| + 1] + From(|before| + 2, |values| - 1))[1..] == From(|before| + 2, |values| - 1);
    }
  }

  /** Each placeholder is bound to the value its condition is about, whatever is bound after them. */
  lemma {:induction false} NumberedSelects(before: seq<Value>, parts: seq<Part>, after: seq<Value>, row: EventRow)
    ensures Selects(Numbered(parts, |before| + 1), before + Values(parts) + after, row) <==> PassesAll(parts, row)
    decreases |parts|
  {
    if parts != [] {
      var values, rest := parts[0].values, Values(parts[1..]);
      assert before + (values + rest) + after == before + values + (rest + after);
      BoundFrom(before, values, rest + after);
      assert before + (values + rest) + after == (before + values) + rest + after;
      NumberedSelects(before + values, parts[1..], after, row);
      var tail := Numbered(parts[1..], |before + values| + 1);
      assert ([Clause(parts[0].test, From(|before| + 1, |values|))] + tail)[1..] == tail;
    }
  }

  lemma {:induction false} PassesAllAppend(a: seq<Part>, b: seq<Part>, row: EventRow)
    ensures PassesAll(a + b, row) <==> PassesAll(a, row) && PassesAll(b, row)
  {
    if a == [] {
      assert a + b == b;
    } else {
      assert (a + b)[0] == a[0] && (a + b)[1..] == a[1..] + b;
      PassesAllAppend(a[1..], b, row);
    }
  }

  lemma {:induction false} InTexts(kinds: seq<string>, kind: string)
    ensures Text(kind) in Texts(kinds) <==> kind in kinds
  {
    if kinds != [] {
      InTexts(kinds[1..], kind);
      assert kinds == [kinds[0]] + kinds[1..];
    }
  }

  lemma OnePart(parts: seq<Part>, row: EventRow)
    requires |parts| <= 1
    ensures PassesAll(parts, row) <==> (parts == [] || Passes(row, parts[0].test, parts[0].values))
  {
    if parts != [] {
      assert parts[1..] == [];
    }
  }

  lemma EightParts(a: seq<Part>, b: seq<Part>, c: seq<Part>, d: seq<Part>, e: seq<Part>, g: seq<Part>, h: seq<Part>,
                   k: seq<Part>, row: EventRow)
    ensures PassesAll(a + b + c + d + e + g + h + k, row)
            <==> PassesAll(a, row) && PassesAll(b, row) && PassesAll(c, row) && PassesAll(d, row)
                 && PassesAll(e, row) && PassesAll(g, row) && PassesAll(h, row) && PassesAll(k, row)
  {
    var abc := a + b + c;
    var abcde := abc + d + e;
    PassesAllAppend(abcde + g + h, k, row);
    PassesAllAppend(abcde + g, h, row);
    PassesAllAppend(abcde, g, row);
    PassesAllAppend(abc + d, e, row);
    PassesAllAppend(abc, d, row);
    PassesAllAppend(a + b, c, row);
    PassesAllAppend(a, b, row);
  }

  lemma FirstPartsMean(f: Filters, row: EventRow)
    ensures PassesAll(TextPart(HostIs, f.host), row) <==> (f.host.Some? ==> row.host == f.host.value)
    ensures PassesAll(TextPart(PathLike, Mapped(f.pathPrefix, PathPattern)), row)
            <==> (f.pathPrefix.Some? ==> row.path.Some? && Like(row.path.value, PathPattern(f.pathPrefix.value)))
    ensures PassesAll(TextPart(NameLike, Mapped(f.filename, NamePattern)), row)
            <==> (f.filename.Some? ==> row.path.Some? && Like(LastName(row.path.value), NamePattern(f.filename.value)))
    ensures PassesAll(TextPart(AuthorIs, f.author), row) <==> (f.author.Some? ==> row.author == f.author)
  {
    OnePart(TextPart(HostIs, f.host), row);
    OnePart(TextPart(PathLike, Mapped(f.pathPrefix, PathPattern)), row);
    OnePart(TextPart(NameLike, Mapped(f.filename, NamePattern)), row);
    OnePart(TextPart(AuthorIs, f.author), row);
  }

  lemma LastPartsMean(f: Filters, row: EventRow)
    ensures PassesAll(TextPart(SeverityIs, f.severity), row)
            <==> (f.severity.Some? ==> row.severity == f.severity.value)
    ensures PassesAll(TimePart(NotBefore, f.since), row) <==> (f.since.Some? ==> row.time >= f.since.value)
    ensures PassesAll(TimePart(NotAfter, f.until), row) <==> (f.until.Some? ==> row.time <= f.until.value)
    ensures PassesAll(KindPart(f.excluded), row) <==> row.kind !in f.excluded
  {
    OnePart(TextPart(SeverityIs, f.severity), row);
    OnePart(TimePart(NotBefore, f.since), row);
    OnePart(TimePart(NotAfter, f.until), row);
    OnePart(KindPart(f.excluded), row);
    InTexts(f.excluded, row.kind);
  }

  lemma PartsMeanFilters(f: Filters, row: EventRow)
    ensures PassesAll(Parts(f), row) <==> Matches(f, row)
  {
    EightParts(TextPart(HostIs, f.host), TextPart(PathLike, Mapped(f.pathPrefix, PathPattern)),
               TextPart(NameLike, Mapped(f.filename, NamePattern)), TextPart(AuthorIs, f.author),
               TextPart(SeverityIs, f.severity), TimePart(NotBefore, f.since), TimePart(NotAfter, f.until),
               KindPart(f.excluded), row);
    FirstPartsMean(f, row);
    LastPartsMean(f, row);
  }

  /** For every filter set, `list` and `count` select the same rows: those that match the filters. */
  lemma ListAndCountSelectTheSame(f: Filters, limit: int, offset: int, row: EventRow)
    ensures Selects(Numbered(Parts(f), 1), Values(Parts(f)) + [Number(limit), Number(offset)], row) <==> Matches(f, row)
    ensures Selects(Numbered(Parts(f), 1), Values(Parts(f)), row) <==> Matches(f, row)
  {
    SelectsFromOne(Parts(f), [Number(limit), Number(offset)], row);
    SelectsFromOne(Parts(f), [], row);
    assert Values(Parts(f)) + [] == Values(Parts(f));
    PartsMeanFilters(f, row);
  }

  lemma SelectsFromOne(parts: seq<Part>, after: seq<Value>, row: EventRow)
    ensures Selects(Numbered(parts, 1), Values(parts) + after, row) <==> PassesAll(parts, row)
  {
    NumberedSelects([], parts, after, row);
    assert [] + Values(parts) + after == Values(parts) + after;
  }

  function AllParams(clauses: seq<Clause>): seq<nat> {
    if clauses == [] then [] else clauses[0].params + AllParams(clauses[1..])
  }

  lemma {:induction false} FromAppend(first: nat, a: nat, b: nat)
    ensures From(first, a + b) == From(first, a) + From(first + a, b)
    decreases a
  {
    if a > 0 {
      FromAppend(first + 1, a - 1, b);
    }
  }

  /** The placeholders are numbered 1 to k in the order of the text, each used once. */
  lemma {:induction false} PlaceholdersAreConsecutive(parts: seq<Part>, first: nat)
    ensures AllParams(Numbered(parts, first)) == From(first, |Values(parts)|)
    decreases |parts|
  {
    if parts != [] {
      var n := |parts[0].values|;
      PlaceholdersAreConsecutive(parts[1..], first + n);
      FromAppend(first, n, |Values(parts[1..])|);
      assert ([Clause(parts[0].test, From(first, n))] + Numbered(parts[1..], first + n))[1..]
          == Numbered(parts[1..], first + n);
    }
  }

  // ----- what the path filters mean -------------------------------------------------------------------

  predicate Plain(text: string) {
    '%' !in text && '_' !in text && '\\' !in text
  }

  lemma {:induction false} LikeAny(text: string)
    ensures Like(text, "%")
  {
    if text != "" {
      LikeAny(text[1..]);
    }
    assert "%"[1..] == "";
  }

  /** A prefix without wildcards selects exactly the paths that start with it. */
  lemma {:induction false} PlainPrefixMeansStartsWith(text: string, prefix: string)
    requires Plain(prefix)
    ensures Like(text, PathPattern(prefix)) <==> prefix <= text
  {
    if prefix == "" {
      assert PathPattern(prefix) == "%";
      LikeAny(text);
    } else {
      var pattern := PathPattern(prefix);
      assert pattern[0] == prefix[0] && pattern[0] in prefix && pattern[1..] == PathPattern(prefix[1..]);
      if text != "" {
        assert Plain(prefix[1..]);
        PlainPrefixMeansStartsWith(text[1..], prefix[1..]);
        assert prefix == [prefix[0]] + prefix[1..] && text == [text[0]] + text[1..];
      }
    }
  }

  /** A shortest text that the pattern of a prefix matches. */
  function Sample(prefix: string): string {
    if prefix == "" then ""
    else if prefix[0] == '%' then Sample(prefix[1..])
    else if prefix[0] == '_' then "x" + Sample(prefix[1..])
    else if prefix[0] == '\\' then (if |prefix| > 1 then [prefix[1]] + Sample(prefix[2..]) else "%")
    else [prefix[0]] + Sample(prefix[1..])
  }

  lemma {:induction false} SampleMatches(prefix: string)
    ensures Like(Sample(prefix), PathPattern(prefix))
    decreases |prefix|
  {
    var pattern := PathPattern(prefix);
    if prefix == "" {
      assert pattern == "%";
      LikeAny("");
    } else if prefix[0] == '\\' {
      if |prefix| > 1 {
        SampleMatches(prefix[2..]);
        assert pattern[2..] == PathPattern(prefix[2..]);
        assert Sample(prefix)[1..] == Sample(prefix[2..]);
      } else {
        assert pattern == "\\%" && pattern[2..] == "" && "%"[1..] == "";
      }
    } else {
      SampleMatches(prefix[1..]);
      assert pattern[1..] == PathPattern(prefix[1..]);
      if prefix[0] != '%' {
        assert Sample(prefix)[1..] == Sample(prefix[1..]);
      }
    }
  }

  lemma {:induction false} SampleIsShort(prefix: string)
    ensures |Sample(prefix)| <= |prefix| && (Sample(prefix) == prefix ==> Plain(prefix))
    decreases |prefix|
  {
    if prefix != "" {
      if prefix[0] == '\\' && |prefix| > 1 {
        SampleIsShort(prefix[2..]);
      } else {
        SampleIsShort(prefix[1..]);
        assert prefix == [prefix[0]] + prefix[1..];
        if prefix[0] != '%' && prefix[0] != '_' && prefix[0] != '\\' && Sample(prefix) == prefix {
          assert Sample(prefix)[1..] == Sample(prefix[1..]);
        }
      }
    }
  }

  /** The path filter means "starts with" if and only if the prefix holds no wildcard and no backslash. */
  lemma PrefixFilterIffPlain(prefix: string)
    ensures Plain(prefix) <==> forall text :: Like(text, PathPattern(prefix)) <==> prefix <= text
  {
    if Plain(prefix) {
      forall text ensures Like(text, PathPattern(prefix)) <==> prefix <= text {
        PlainPrefixMeansStartsWith(text, prefix);
      }
    } else {
      SampleMatches(prefix);
      SampleIsShort(prefix);
      assert !(Like(Sample(prefix), PathPattern(prefix)) <==> prefix <= Sample(prefix));
    }
  }

  predicate Contains(text: string, part: string) {
    exists i :: 0 <= i <= |text| && part <= text[i..]
  }

  lemma ContainsCons(text: string, part: string)
    requires text != ""
    ensures Contains(text, part) <==> part <= text || Contains(text[1..], part)
  {
    if i :| 0 <= i <= |text| && part <= text[i..] {
      if i > 0 {
        assert text[1..][i - 1..] == text[i..];
      }
    }
    if i :| 0 <= i <= |text[1..]| && part <= text[1..][i..] {
      assert text[i + 1..] == text[1..][i..];
    }
    assert text[0..] == text;
  }

  /** A name part without wildcards selects exactly the names that contain it. */
  lemma {:induction false} PlainPartMeansContains(text: string, part: string)
    requires Plain(part)
    ensures Like(text, NamePattern(part)) <==> Contains(text, part)
  {
    assert NamePattern(part)[0] == '%' && NamePattern(part)[1..] == PathPattern(part);
    PlainPrefixMeansStartsWith(text, part);
    if text == "" {
      assert text[0..] == text;
    } else {
      PlainPartMeansContains(text[1..], part);
      ContainsCons(text, part);
    }
  }

  /** The file name filter means "contains" if and only if the part holds no wildcard and no backslash. */
  lemma NameFilterIffPlain(part: string)
    ensures Plain(part) <==> forall text :: Like(text, NamePattern(part)) <==> Contains(text, part)
  {
    if Plain(part) {
      forall text ensures Like(text, NamePattern(part)) <==> Contains(text, part) {
        PlainPartMeansContains(text, part);
      }
    } else {
      var text := Sample(part);
      SampleMatches(part);
      SampleIsShort(part);
      assert NamePattern(part)[0] == '%' && NamePattern(part)[1..] == PathPattern(part);
      assert !(Like(text, NamePattern(part)) <==> Contains(text, part));
    }
  }

  // ----- pages ----------------------------------------------------------------------------------------

  /** LIMIT and OFFSET on the selected rows in a fixed order. */
  function Window(rows: seq<EventRow>, limit: nat, offset: nat): seq<EventRow> {
    rows[Min(offset, |rows|)..Min(offset + limit, |rows|)]
  }

  /** The dashboard's number of pages and offset of a page (web/dashboard/src/models.rs). */
  function TotalPages(total: nat, pageSize: nat): nat
    requires pageSize > 0
  {
    if total == 0 then 0 else (total + pageSize - 1) / pageSize
  }

  function PageOffset(page: nat, pageSize: nat): nat
    requires page > 0
  {
    (page - 1) * pageSize
  }

  function Pages(rows: seq<EventRow>, pageSize: nat, upTo: nat): seq<EventRow> {
    if upTo == 0 then [] else Pages(rows, pageSize, upTo - 1) + Window(rows, pageSize, PageOffset(upTo, pageSize))
  }

  lemma {:induction false} PagesArePrefix(rows: seq<EventRow>, pageSize: nat, upTo: nat)
    ensures Pages(rows, pageSize, upTo) == rows[..Min(upTo * pageSize, |rows|)]
  {
    if upTo > 0 {
      PagesArePrefix(rows, pageSize, upTo - 1);
      var offset := PageOffset(upTo, pageSize);
      assert offset + pageSize == upTo * pageSize;
      var a, b := Min(offset, |rows|), Min(offset + pageSize, |rows|);
      assert rows[..a] + rows[a..b] == rows[..b];
    }
  }

  lemma PagesCover(total: nat, pageSize: nat)
    requires pageSize > 0
    ensures total <= TotalPages(total, pageSize) * pageSize < total + pageSize
  {
    if total > 0 {
      var q := total + pageSize - 1;
      assert q == (q / pageSize) * pageSize + q % pageSize;
    }
  }

  /** The pages 1 to `TotalPages`, one after the other, are all rows, each once, and no page in that range
      has an offset beyond the last row. */
  lemma PagesAreAllRows(rows: seq<EventRow>, pageSize: nat, page: nat)
    requires pageSize > 0
    ensures Pages(rows, pageSize, TotalPages(|rows|, pageSize)) == rows
    ensures 1 <= page <= TotalPages(|rows|, pageSize) ==> PageOffset(page, pageSize) < |rows|
  {
    PagesCover(|rows|, pageSize);
    PagesArePrefix(rows, pageSize, TotalPages(|rows|, pageSize));
    if 1 <= page <= TotalPages(|rows|, pageSize) {
      SmallerOffset(page, TotalPages(|rows|, pageSize), pageSize);
    }
  }

  lemma SmallerOffset(page: nat, last: nat, pageSize: nat)
    requires 1 <= page <= last
    ensures PageOffset(page, pageSize) <= last * pageSize - pageSize
  {
    assert last * pageSize - pageSize == (last - 1) * pageSize;
    assert (last - page) * pageSize >= 0;
    assert (last - 1) * pageSize == (page - 1) * pageSize + (last - page) * pageSize;
  }
}
