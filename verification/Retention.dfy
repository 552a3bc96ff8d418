/** The retention sweep over the content files (crates/config-snapshot/src/retention.rs: `enforce_retention`). */
module Retention {
  const SECONDS_PER_DAY: nat := 24 * 3600

  datatype File = File(path: string, size: nat, mtime: int)

  /** An age of 0 days means no age limit. */
  datatype Config = Config(maxTotalBytes: nat, maxAgeDays: nat)

  datatype Stats = Stats(snapshotsRemoved: nat, bytesFreed: nat)

  // ----- the two passes as functions ------------------------------------------------------------------

  function Sum(files: seq<File>): nat {
    if files == [] then 0 else files[0].size + Sum(files[1..])
  }

  function Paths(files: seq<File>): set<string> {
    set k | 0 <= k < |files| :: files[k].path
  }

  predicate Aged(f: File, now: int, config: Config) {
    config.maxAgeDays > 0 && f.mtime < now - config.maxAgeDays * SECONDS_PER_DAY
  }

  /** What the age pass leaves: files that are young enough, and aged ones that cannot be removed. */
  function AfterAge(files: seq<File>, now: int, config: Config, fails: set<string>): seq<File> {
    if files == [] then []
    else
      (if Aged(files[0], now, config) && files[0].path !in fails then [] else [files[0]])
      + AfterAge(files[1..], now, config, fails)
  }

  function InsertBySize(files: seq<File>, f: File): seq<File> {
    if files == [] then [f]
    else if files[0].size >= f.size then [files[0]] + InsertBySize(files[1..], f)
    else [f] + files
  }

  /** The stable sort, largest first. */
  function SortBySize(files: seq<File>): seq<File> {
    if files == [] then [] else InsertBySize(SortBySize(files[..|files| - 1]), files[|files| - 1])
  }

  /** What the size pass leaves of the files from here on, in that order. */
  function AfterSize(files: seq<File>, total: int, cap: nat, fails: set<string>): seq<File> {
    if files == [] || total <= cap then files
    else if files[0].path in fails then [files[0]] + AfterSize(files[1..], total, cap, fails)
    else AfterSize(files[1..], total - files[0].size, cap, fails)
  }

  function AfterBoth(files: seq<File>, now: int, config: Config, ageFails: set<string>,
                     sizeFails: set<string>): seq<File> {
    var aged := AfterAge(files, now, config, ageFails);
    if Sum(aged) <= config.maxTotalBytes then aged
    else AfterSize(SortBySize(aged), Sum(aged), config.maxTotalBytes, sizeFails)
  }

  // ----- the sweep ------------------------------------------------------------------------------------

  predicate Distinct(files: seq<File>) {
    forall i, j :: 0 <= i < j < |files| ==> files[i].path != files[j].path
  }

  class SnapshotDir {
    var present: set<string>

    constructor (files: seq<File>)
      ensures present == Paths(files)
    {
      present := Paths(files);
    }

    /** The directory holds exactly these files, and they have `bytes` bytes. */
    ghost predicate Holds(files: seq<File>, bytes: int)
      reads this
    {
      Distinct(files) && present == Paths(files) && Sum(files) == bytes
    }

    method RemoveFile(path: string, fails: set<string>) returns (ok: bool)
      modifies this
      ensures ok == (path !in fails)
      ensures present == if ok then old(present) - {path} else old(present)
    {
      ok := path !in fails;
      if ok {
        present := present - {path};
      }
    }

    /** `entries` is what the walk found; `ageFails` and `sizeFails` are the files that cannot be removed
        in each pass. */
    method EnforceRetention(entries: seq<File>, now: int, config: Config, ageFails: set<string>, sizeFails: set<string>)
      returns (stats: Stats)
      requires Distinct(entries) && present == Paths(entries)
      modifies this
      ensures
        var left := AfterBoth(entries, now, config, ageFails, sizeFails);
        && present == Paths(left)
        && stats.snapshotsRemoved == |entries| - |left| && stats.bytesFreed == Sum(entries) - Sum(left)
    {
      var kept, removed, freed := entries, 0, 0;
      if config.maxAgeDays > 0 {
        kept, removed, freed := AgePass(entries, now, config, ageFails);
      } else {
        NoAgeLimit(entries, now, config, ageFails);
      }
      AgeKeepsDistinct(entries, now, config, ageFails);
      var total := Sum(kept);
      if total > config.maxTotalBytes {
        var sorted := SortBySize(kept);
        SortIsPermutation(kept);
        SortKeepsDistinct(kept);
        var moreRemoved, moreFreed := SizePass(sorted, total, config.maxTotalBytes, sizeFails);
        removed, freed := removed + moreRemoved, freed + moreFreed;
      }
      stats := Stats(removed, freed);
    }

    /** Removes `f`, which lies between the files kept so far and the rest, if it should go and can. */
    method TryRemove(kept: seq<File>, f: File, wanted: bool, fails: set<string>, ghost rest: seq<File>,
                     ghost left: seq<File>,
                     ghost bytes: int)
      returns (more: seq<File>, ok: bool, ghost after: seq<File>)
      requires left == kept + ([f] + rest) && Holds(left, bytes)
      modifies this
      ensures ok == (wanted && f.path !in fails) && more == (if ok then kept else kept + [f])
      ensures after == more + rest && Holds(after, if ok then bytes - f.size else bytes)
    {
      ok := false;
      if wanted {
        ok := RemoveFile(f.path, fails);
      }
      if ok {
        DropMiddle(kept, f, rest);
        more := kept;
      } else {
        assert kept + [f] + rest == kept + ([f] + rest);
        more := kept + [f];
      }
      after := more + rest;
    }

    method AgePass(entries: seq<File>, now: int, config: Config, fails: set<string>)
      returns (kept: seq<File>, removed: nat, freed: nat)
      requires Holds(entries, Sum(entries))
      modifies this
      ensures kept == AfterAge(entries, now, config, fails) && Holds(kept, Sum(entries) - freed)
      ensures removed == |entries| - |kept|
    {
      kept, removed, freed := [], 0, 0;
      ghost var rest, left, goal, sum := entries, entries, AfterAge(entries, now, config, fails), Sum(entries);
      assert [] + entries == entries && [] + goal == goal;
      for i := 0 to |entries|
        invariant rest == entries[i..] && removed == i - |kept|
        invariant kept + AfterAge(rest, now, config, fails) == goal
        invariant left == kept + rest && Holds(left, sum - freed)
      {
        AgeStep(kept, rest, now, config, fails);
        var ok;
        kept, ok, left := TryRemove(kept, entries[i], Aged(entries[i], now, config), fails, rest[1..], left,
                                    sum - freed);
        rest := rest[1..];
        if ok {
          removed, freed := removed + 1, freed + entries[i].size;
        }
      }
      assert kept + [] == kept;
    }

    /** One round of the size pass, with the total after it. */
    method SizeOne(kept: seq<File>, f: File, total: int, cap: nat, fails: set<string>, ghost rest: seq<File>,
                   ghost left: seq<File>, ghost todo: seq<File>)
      returns (more: seq<File>, ok: bool, newTotal: int, ghost leftAfter: seq<File>, ghost todoAfter: seq<File>)
      requires rest != [] && rest[0] == f && total > cap && left == kept + rest && Holds(left, total)
      requires todo == AfterSize(rest, total, cap, fails)
      modifies this
      ensures more == (if ok then kept else kept + [f]) && newTotal == (if ok then total - f.size else total)
      ensures leftAfter == more + rest[1..] && Holds(leftAfter, newTotal)
      ensures todoAfter == AfterSize(rest[1..], newTotal, cap, fails) && kept + todo == more + todoAfter
    {
      assert rest == [f] + rest[1..];
      more, ok, leftAfter := TryRemove(kept, f, true, fails, rest[1..], left, total);
      newTotal := if ok then total - f.size else total;
      todoAfter := AfterSize(rest[1..], newTotal, cap, fails);
      assert kept + ([f] + todoAfter) == kept + [f] + todoAfter;
    }

    method SizePass(sorted: seq<File>, sum: nat, cap: nat, fails: set<string>) returns (removed: nat, freed: nat)
      requires Holds(sorted, sum)
      modifies this
      ensures
        var goal := AfterSize(sorted, sum, cap, fails);
        Holds(goal, sum - freed) && removed == |sorted| - |goal|
    {
      removed, freed := 0, 0;
      var total: int := sum;
      var i := 0;
      var kept: seq<File> := [];
      ghost var rest, left, todo := sorted, sorted, AfterSize(sorted, sum, cap, fails);
      ghost var goal := todo;
      EmptyFirst(sorted);
      EmptyFirst(todo);
      while i < |sorted| && total > cap
        invariant i <= |sorted| && rest == sorted[i..] && removed == i - |kept| && total + freed == sum
        invariant todo == AfterSize(rest, total, cap, fails) && kept + todo == goal
        invariant left == kept + rest && Holds(left, total)
        decreases |sorted| - i
      {
        var ok;
        kept, ok, total, left, todo := SizeOne(kept, sorted[i], total, cap, fails, rest, left, todo);
        rest := rest[1..];
        if ok {
          freed, removed := freed + sorted[i].size, removed + 1;
        }
        i := i + 1;
      }
      NothingToRemove(rest, total, cap, fails);
    }
  }

  lemma EmptyFirst(files: seq<File>)
    ensures [] + files == files
  {
  }

  lemma NothingToRemove(files: seq<File>, total: int, cap: nat, fails: set<string>)
    requires files == [] || total <= cap
    ensures AfterSize(files, total, cap, fails) == files
  {
  }

  lemma AgeStep(kept: seq<File>, rest: seq<File>, now: int, config: Config, fails: set<string>)
    requires rest != []
    ensures kept + rest == kept + ([rest[0]] + rest[1..])
    ensures kept + AfterAge(rest, now, config, fails)
         == (if Aged(rest[0], now, config) && rest[0].path !in fails then kept else kept + [rest[0]])
            + AfterAge(rest[1..], now, config, fails)
  {
    assert rest == [rest[0]] + rest[1..];
    assert kept + ([rest[0]] + AfterAge(rest[1..], now, config, fails))
           == kept + [rest[0]] + AfterAge(rest[1..], now, config, fails);
    assert [] + AfterAge(rest[1..], now, config, fails) == AfterAge(rest[1..], now, config, fails);
  }

  lemma {:induction false} SumAppend(a: seq<File>, b: seq<File>)
    ensures Sum(a + b) == Sum(a) + Sum(b)
  {
    if a == [] {
      assert a + b == b;
    } else {
      assert (a + b)[0] == a[0] && (a + b)[1..] == a[1..] + b;
      SumAppend(a[1..], b);
    }
  }

  lemma DropMiddle(a: seq<File>, f: File, b: seq<File>)
    requires Distinct(a + ([f] + b))
    ensures Distinct(a + b) && Paths(a + b) == Paths(a + ([f] + b)) - {f.path}
    ensures Sum(a + b) + f.size == Sum(a + ([f] + b))
  {
    var all, less := a + ([f] + b), a + b;
    assert all[|a|] == f;
    forall k | 0 <= k < |less| ensures less[k] == all[if k < |a| then k else k + 1] {
    }
    forall p | p in Paths(all) && p != f.path ensures p in Paths(less) {
      var k :| 0 <= k < |all| && all[k].path == p;
      assert less[if k < |a| then k else k - 1] == all[k];
    }
    forall p | p in Paths(less) ensures p in Paths(all) && p != f.path {
      var k :| 0 <= k < |less| && less[k].path == p;
      assert all[if k < |a| then k else k + 1].path == p;
    }
    SumAppend(a, b);
    SumAppend(a, [f] + b);
    assert ([f] + b)[1..] == b;
  }

  lemma {:induction false} NoAgeLimit(files: seq<File>, now: int, config: Config, fails: set<string>)
    requires config.maxAgeDays == 0
    ensures AfterAge(files, now, config, fails) == files
  {
    if files != [] {
      NoAgeLimit(files[1..], now, config, fails);
    }
  }

  lemma {:induction false} AgeSubset(files: seq<File>, now: int, config: Config, fails: set<string>, f: File)
    ensures f in AfterAge(files, now, config, fails) <==> f in files && !(Aged(f, now, config) && f.path !in fails)
  {
    if files != [] {
      AgeSubset(files[1..], now, config, fails, f);
      assert files == [files[0]] + files[1..];
    }
  }

  lemma {:induction false} AgeKeepsDistinct(files: seq<File>, now: int, config: Config, fails: set<string>)
    requires Distinct(files)
    ensures Distinct(AfterAge(files, now, config, fails))
  {
    if files != [] {
      var rest := AfterAge(files[1..], now, config, fails);
      AgeKeepsDistinct(files[1..], now, config, fails);
      forall k | 0 <= k < |rest| ensures rest[k].path != files[0].path {
        AgeSubset(files[1..], now, config, fails, rest[k]);
        var j :| 0 <= j < |files[1..]| && files[1..][j] == rest[k];
        assert files[j + 1] == rest[k];
      }
    }
  }

  // ----- the sort -------------------------------------------------------------------------------------

  predicate Descending(files: seq<File>) {
    files == [] || (AtMost(files[1..], files[0].size) && Descending(files[1..]))
  }

  predicate AtMost(files: seq<File>, bound: nat) {
    files == [] || (files[0].size <= bound && AtMost(files[1..], bound))
  }

  lemma {:induction false} AtMostWeaker(files: seq<File>, bound: nat, higher: nat)
    requires AtMost(files, bound) && bound <= higher
    ensures AtMost(files, higher)
  {
    if files != [] {
      AtMostWeaker(files[1..], bound, higher);
    }
  }

  lemma {:induction false} InsertAtMost(files: seq<File>, f: File, bound: nat)
    requires AtMost(files, bound) && f.size <= bound
    ensures AtMost(InsertBySize(files, f), bound)
  {
    if files == [] {
    } else if files[0].size >= f.size {
      InsertAtMost(files[1..], f, bound);
      assert ([files[0]] + InsertBySize(files[1..], f))[1..] == InsertBySize(files[1..], f);
    } else {
      assert ([f] + files)[1..] == files;
    }
  }

  lemma {:induction false} InsertDescending(files: seq<File>, f: File)
    requires Descending(files)
    ensures Descending(InsertBySize(files, f))
    ensures multiset(InsertBySize(files, f)) == multiset(files) + multiset{f}
    ensures Sum(InsertBySize(files, f)) == Sum(files) + f.size
  {
    if files == [] {
    } else if files[0].size >= f.size {
      InsertDescending(files[1..], f);
      InsertAtMost(files[1..], f, files[0].size);
      assert ([files[0]] + InsertBySize(files[1..], f))[1..] == InsertBySize(files[1..], f);
      assert files == [files[0]] + files[1..];
    } else {
      assert ([f] + files)[1..] == files;
      AtMostWeaker(files[1..], files[0].size, f.size);
    }
  }

  lemma {:induction false} SortIsPermutation(files: seq<File>)
    ensures Descending(SortBySize(files)) && multiset(SortBySize(files)) == multiset(files)
    ensures Sum(SortBySize(files)) == Sum(files) && |SortBySize(files)| == |files|
    ensures Paths(SortBySize(files)) == Paths(files)
  {
    if files != [] {
      var n := |files| - 1;
      SortIsPermutation(files[..n]);
      InsertDescending(SortBySize(files[..n]), files[n]);
      assert files == files[..n] + [files[n]];
      SumAppend(files[..n], [files[n]]);
      assert |multiset(SortBySize(files))| == |multiset(files)|;
    }
    SameMembersSamePaths(SortBySize(files), files);
  }

  /** The files of one size, in order. */
  function OfSize(files: seq<File>, size: nat): seq<File> {
    if files == [] then [] else (if files[0].size == size then [files[0]] else []) + OfSize(files[1..], size)
  }

  lemma {:induction false} OfSizeAppend(a: seq<File>, b: seq<File>, size: nat)
    ensures OfSize(a + b, size) == OfSize(a, size) + OfSize(b, size)
  {
    if a == [] {
      EmptyFirst(b);
    } else {
      assert (a + b)[0] == a[0] && (a + b)[1..] == a[1..] + b;
      OfSizeAppend(a[1..], b, size);
      var first, x, y := if a[0].size == size then [a[0]] else [], OfSize(a[1..], size), OfSize(b, size);
      assert first + (x + y) == first + x + y;
    }
  }

  lemma {:induction false} NoneOfSize(files: seq<File>, bound: nat, size: nat)
    requires AtMost(files, bound) && bound < size
    ensures OfSize(files, size) == []
  {
    if files != [] {
      AtMostWeaker(files[1..], bound, bound);
      NoneOfSize(files[1..], bound, size);
    }
  }

  lemma {:induction false} InsertIsStable(files: seq<File>, f: File, size: nat)
    requires Descending(files)
    ensures OfSize(InsertBySize(files, f), size) == OfSize(files + [f], size)
  {
    if files == [] {
      assert files + [f] == [f];
    } else if files[0].size >= f.size {
      InsertIsStable(files[1..], f, size);
      assert (files + [f])[0] == files[0] && (files + [f])[1..] == files[1..] + [f];
    } else {
      OfSizeAppend(files, [f], size);
      OfSizeAppend([f], files, size);
      if f.size == size {
        NoneOfSize(files[1..], files[0].size, size);
      }
      assert [f][1..] == [];
    }
  }

  /** Files of one size stay in the order in which they were found. */
  lemma {:induction false} SortIsStable(files: seq<File>, size: nat)
    ensures OfSize(SortBySize(files), size) == OfSize(files, size)
  {
    if files != [] {
      var n := |files| - 1;
      SortIsStable(files[..n], size);
      SortIsPermutation(files[..n]);
      InsertIsStable(SortBySize(files[..n]), files[n], size);
      OfSizeAppend(SortBySize(files[..n]), [files[n]], size);
      OfSizeAppend(files[..n], [files[n]], size);
      assert files[..n] + [files[n]] == files;
    }
  }

  lemma SameMembersSamePaths(a: seq<File>, b: seq<File>)
    requires multiset(a) == multiset(b)
    ensures Paths(a) == Paths(b)
  {
    forall p | p in Paths(a) ensures p in Paths(b) {
      var k :| 0 <= k < |a| && a[k].path == p;
      assert a[k] in multiset(b);
    }
    forall p | p in Paths(b) ensures p in Paths(a) {
      var k :| 0 <= k < |b| && b[k].path == p;
      assert b[k] in multiset(a);
    }
  }

  lemma DistinctHasNo(files: seq<File>, f: File)
    requires Distinct(files + [f])
    ensures f.path !in Paths(files)
  {
    forall k | 0 <= k < |files| ensures files[k].path != f.path {
      assert (files + [f])[k].path != (files + [f])[|files|].path;
    }
  }

  lemma {:induction false} InsertKeepsDistinct(files: seq<File>, f: File)
    requires Distinct(files) && f.path !in Paths(files)
    ensures Distinct(InsertBySize(files, f))
    ensures forall k :: 0 <= k < |InsertBySize(files, f)| ==>
              InsertBySize(files, f)[k] == f || InsertBySize(files, f)[k] in files
  {
    if files != [] {
      assert forall k :: 0 <= k < |files| ==> files[k].path in Paths(files);
      assert forall p :: p in Paths(files[1..]) ==> p in Paths(files);
      InsertKeepsDistinct(files[1..], f);
    }
  }

  lemma {:induction false} SortKeepsDistinct(files: seq<File>)
    requires Distinct(files)
    ensures Distinct(SortBySize(files))
  {
    if files != [] {
      var n := |files| - 1;
      SortKeepsDistinct(files[..n]);
      SortIsPermutation(files[..n]);
      assert files == files[..n] + [files[n]];
      DistinctHasNo(files[..n], files[n]);
      InsertKeepsDistinct(SortBySize(files[..n]), files[n]);
    }
  }

  // ----- properties -----------------------------------------------------------------------------------

  lemma {:induction false} SizeSubset(files: seq<File>, total: int, cap: nat, fails: set<string>, f: File)
    requires f in AfterSize(files, total, cap, fails)
    ensures f in files
  {
    if files != [] && total > cap {
      assert files == [files[0]] + files[1..];
      if files[0].path in fails {
        if f != files[0] {
          SizeSubset(files[1..], total, cap, fails, f);
        }
      } else {
        SizeSubset(files[1..], total - files[0].size, cap, fails, f);
      }
    }
  }

  lemma SweepSubset(files: seq<File>, now: int, config: Config, ageFails: set<string>, sizeFails: set<string>, f: File)
    requires f in AfterBoth(files, now, config, ageFails, sizeFails)
    ensures f in AfterAge(files, now, config, ageFails)
  {
    var aged := AfterAge(files, now, config, ageFails);
    if Sum(aged) > config.maxTotalBytes {
      SizeSubset(SortBySize(aged), Sum(aged), config.maxTotalBytes, sizeFails, f);
      SortIsPermutation(aged);
      assert f in multiset(SortBySize(aged));
      assert f in multiset(aged);
    }
  }

  /** No file that is more than the maximum age old is left unless removing it failed in the age pass. */
  lemma NoAgedFileSurvives(files: seq<File>, now: int, config: Config, ageFails: set<string>, sizeFails: set<string>,
                           f: File)
    requires f in AfterBoth(files, now, config, ageFails, sizeFails)
    requires config.maxAgeDays > 0 && now - f.mtime > config.maxAgeDays * 86_400
    ensures f.path in ageFails && f in files
  {
    SweepSubset(files, now, config, ageFails, sizeFails, f);
    AgeSubset(files, now, config, ageFails, f);
  }

  lemma {:induction false} AgeSum(files: seq<File>, now: int, config: Config, fails: set<string>)
    ensures Sum(AfterAge(files, now, config, fails)) <= Sum(files)
  {
    if files != [] {
      AgeSum(files[1..], now, config, fails);
      SumAppend(if Aged(files[0], now, config) && files[0].path !in fails then [] else [files[0]],
                AfterAge(files[1..], now, config, fails));
      assert [files[0]][1..] == [];
    }
  }

  /** Of files that are together under the cap, exactly those stay that are not over the maximum age, and those
      that could not be removed; with a maximum age of 0 days all of them. */
  lemma UnderCapStaysIffYoung(files: seq<File>, now: int, config: Config, ageFails: set<string>,
                              sizeFails: set<string>, f: File)
    requires Sum(files) <= config.maxTotalBytes
    ensures f in AfterBoth(files, now, config, ageFails, sizeFails)
            <==> f in files && (config.maxAgeDays == 0 || now - f.mtime <= config.maxAgeDays * 86_400
                                || f.path in ageFails)
  {
    AgeSum(files, now, config, ageFails);
    AgeSubset(files, now, config, ageFails, f);
  }

  predicate AllFail(files: seq<File>, fails: set<string>) {
    files == [] || (files[0].path in fails && AllFail(files[1..], fails))
  }

  lemma {:induction false} SizePassReaches(files: seq<File>, total: int, cap: nat, fails: set<string>)
    ensures total - Sum(files) + Sum(AfterSize(files, total, cap, fails)) <= cap
            || AllFail(AfterSize(files, total, cap, fails), fails)
  {
    if files != [] && total > cap {
      if files[0].path in fails {
        SizePassReaches(files[1..], total, cap, fails);
        assert ([files[0]] + AfterSize(files[1..], total, cap, fails))[1..] == AfterSize(files[1..], total, cap, fails);
      } else {
        SizePassReaches(files[1..], total - files[0].size, cap, fails);
      }
    }
  }

  /** After the sweep the total is under the cap, or removing each file that is left failed. */
  lemma UnderCapOrStuck(files: seq<File>, now: int, config: Config, ageFails: set<string>, sizeFails: set<string>)
    ensures
      var left := AfterBoth(files, now, config, ageFails, sizeFails);
      Sum(left) <= config.maxTotalBytes || AllFail(left, sizeFails)
  {
    var aged := AfterAge(files, now, config, ageFails);
    SortIsPermutation(aged);
    SizePassReaches(SortBySize(aged), Sum(aged), config.maxTotalBytes, sizeFails);
  }

  /** The files a mask picks: their number and their bytes. */
  function Count(mask: seq<bool>): nat {
    if mask == [] then 0 else (if mask[0] then 1 else 0) + Count(mask[1..])
  }

  function Picked(files: seq<File>, mask: seq<bool>): nat
    requires |mask| == |files|
  {
    if files == [] then 0 else (if mask[0] then files[0].size else 0) + Picked(files[1..], mask[1..])
  }

  predicate Removable(files: seq<File>, mask: seq<bool>, fails: set<string>)
    requires |mask| == |files|
  {
    files == [] || ((mask[0] ==> files[0].path !in fails) && Removable(files[1..], mask[1..], fails))
  }

  lemma {:induction false} PickOneLess(files: seq<File>, mask: seq<bool>, fails: set<string>, bound: nat)
    returns (less: seq<bool>)
    requires |mask| == |files| && AtMost(files, bound) && Removable(files, mask, fails) && Picked(files, mask) > 0
    ensures |less| == |files| && Removable(files, less, fails)
    ensures Count(less) + 1 == Count(mask) && Picked(files, mask) <= Picked(files, less) + bound
  {
    if mask[0] {
      less := [false] + mask[1..];
      assert less[1..] == mask[1..];
    } else {
      var rest := PickOneLess(files[1..], mask[1..], fails, bound);
      less := [false] + rest;
      assert less[1..] == rest;
    }
  }

  /** Removing the largest first is optimal: whatever removable files one picks, if removing them brings
      the total under the cap, they are at least as many as the size pass removes. */
  lemma {:induction false} LargestFirstIsOptimal(files: seq<File>, total: int, cap: nat, fails: set<string>,
                                                 mask: seq<bool>)
    requires Descending(files) && |mask| == |files| && Removable(files, mask, fails)
    requires total - Picked(files, mask) <= cap
    ensures Count(mask) >= |files| - |AfterSize(files, total, cap, fails)|
    decreases |files|
  {
    if files != [] && total > cap {
      if files[0].path in fails {
        LargestFirstIsOptimal(files[1..], total, cap, fails, mask[1..]);
      } else if mask[0] {
        LargestFirstIsOptimal(files[1..], total - files[0].size, cap, fails, mask[1..]);
      } else {
        var less := PickOneLess(files[1..], mask[1..], fails, files[0].size);
        LargestFirstIsOptimal(files[1..], total - files[0].size, cap, fails, less);
      }
    }
  }

  /** The same for the whole sweep: among the files the age pass leaves, taken in order of size. */
  lemma SweepIsOptimal(files: seq<File>, now: int, config: Config, ageFails: set<string>, sizeFails: set<string>,
                       mask: seq<bool>)
    requires
      var aged := SortBySize(AfterAge(files, now, config, ageFails));
      && |mask| == |aged| && Removable(aged, mask, sizeFails) && Sum(aged) - Picked(aged, mask) <= config.maxTotalBytes
    ensures |AfterAge(files, now, config, ageFails)|
         <= |AfterBoth(files, now, config, ageFails, sizeFails)| + Count(mask)
  {
    var aged := AfterAge(files, now, config, ageFails);
    SortIsPermutation(aged);
    LargestFirstIsOptimal(SortBySize(aged), Sum(aged), config.maxTotalBytes, sizeFails, mask);
  }
}
