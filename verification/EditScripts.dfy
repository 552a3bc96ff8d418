/** Line-level edit scripts: what a rendered diff denotes, independently of how it is computed.

    An entry names 0-based line numbers of the previous and the current file.  A list of
    entries is an edit script when it visits every previous line once and in order, every
    current line once and in order, and its context entries name equal lines. */
module EditScripts {

  type Lines = seq<string>

  /** Line i of a file.  Renderers index only lines that exist; elsewhere the value is immaterial. */
  function LineAt(lines: Lines, i: nat): string {
    if i < |lines| then lines[i] else ""
  }

  datatype Entry =
    | Context(prevLn: nat, currLn: nat)
    | Removed(prevLn: nat)
    | Added(currLn: nat)

  function PrevNumbers(es: seq<Entry>): seq<nat> {
    if es == [] then []
    else if es[0].Added? then PrevNumbers(es[1..])
    else [es[0].prevLn] + PrevNumbers(es[1..])
  }

  function CurrNumbers(es: seq<Entry>): seq<nat> {
    if es == [] then []
    else if es[0].Removed? then CurrNumbers(es[1..])
    else [es[0].currLn] + CurrNumbers(es[1..])
  }

  /** lo, lo + 1, lo + 2, ... */
  predicate CountsFrom(ns: seq<nat>, lo: nat) {
    forall i :: 0 <= i < |ns| ==> ns[i] == lo + i
  }

  lemma CountsCons(n: nat, ns: seq<nat>, lo: nat)
    ensures CountsFrom([n] + ns, lo) <==> n == lo && CountsFrom(ns, lo + 1)
  {
    var all := [n] + ns;
    if CountsFrom(all, lo) {
      assert all[0] == n;
      assert forall i :: 0 <= i < |ns| ==> ns[i] == all[i + 1];
    }
  }

  predicate EntryInBounds(e: Entry, prevLen: nat, currLen: nat) {
    (!e.Added? ==> e.prevLn < prevLen) && (!e.Removed? ==> e.currLn < currLen)
  }

  predicate AllContext(es: seq<Entry>) {
    es == [] || (es[0].Context? && AllContext(es[1..]))
  }

  lemma {:induction false} EachIsContext(es: seq<Entry>, i: nat)
    requires AllContext(es) && i < |es|
    ensures es[i].Context?
  {
    if i > 0 {
      EachIsContext(es[1..], i - 1);
    }
  }

  predicate InBounds(es: seq<Entry>, prevLen: nat, currLen: nat) {
    forall i :: 0 <= i < |es| ==> EntryInBounds(es[i], prevLen, currLen)
  }

  ghost predicate IsEditScript(es: seq<Entry>, prev: Lines, curr: Lines) {
    && |PrevNumbers(es)| == |prev| && CountsFrom(PrevNumbers(es), 0)
    && |CurrNumbers(es)| == |curr| && CountsFrom(CurrNumbers(es), 0)
    && forall i :: 0 <= i < |es| && es[i].Context? ==>
         es[i].prevLn < |prev| && es[i].currLn < |curr| && prev[es[i].prevLn] == curr[es[i].currLn]
  }

  /** Entry e names the next line of each file it touches, p and c; a context entry equal lines. */
  ghost predicate Fits(e: Entry, p: nat, c: nat, prev: Lines, curr: Lines) {
    match e
    case Context(a, b) => a == p < |prev| && b == c < |curr| && prev[p] == curr[c]
    case Removed(a) => a == p < |prev|
    case Added(b) => b == c < |curr|
  }

  function PrevNext(e: Entry, p: nat): nat {
    if e.Added? then p else p + 1
  }

  function CurrNext(e: Entry, c: nat): nat {
    if e.Removed? then c else c + 1
  }

  /** The same notion read from the front: entries continue the files from lines p and c. */
  ghost predicate Steps(es: seq<Entry>, p: nat, c: nat, prev: Lines, curr: Lines) {
    es == [] ||
    (Fits(es[0], p, c, prev, curr) && Steps(es[1..], PrevNext(es[0], p), CurrNext(es[0], c), prev, curr))
  }

  /** Steps that also reach the end of both files. */
  ghost predicate Completes(es: seq<Entry>, p: nat, c: nat, prev: Lines, curr: Lines) {
    && Steps(es, p, c, prev, curr)
    && p + |PrevNumbers(es)| == |prev|
    && c + |CurrNumbers(es)| == |curr|
  }

  lemma {:induction false} PrevNumbersAppend(a: seq<Entry>, b: seq<Entry>)
    ensures PrevNumbers(a + b) == PrevNumbers(a) + PrevNumbers(b)
  {
    if a == [] {
      assert a + b == b;
    } else {
      assert (a + b)[0] == a[0] && (a + b)[1..] == a[1..] + b;
      PrevNumbersAppend(a[1..], b);
    }
  }

  lemma {:induction false} CurrNumbersAppend(a: seq<Entry>, b: seq<Entry>)
    ensures CurrNumbers(a + b) == CurrNumbers(a) + CurrNumbers(b)
  {
    if a == [] {
      assert a + b == b;
    } else {
      assert (a + b)[0] == a[0] && (a + b)[1..] == a[1..] + b;
      CurrNumbersAppend(a[1..], b);
    }
  }

  lemma {:induction false} StepsAppend(a: seq<Entry>, b: seq<Entry>, p: nat, c: nat, prev: Lines, curr: Lines)
    ensures Steps(a + b, p, c, prev, curr) <==>
            Steps(a, p, c, prev, curr) && Steps(b, p + |PrevNumbers(a)|, c + |CurrNumbers(a)|, prev, curr)
  {
    if a == [] {
      assert a + b == b;
    } else {
      assert (a + b)[0] == a[0] && (a + b)[1..] == a[1..] + b;
      StepsAppend(a[1..], b, PrevNext(a[0], p), CurrNext(a[0], c), prev, curr);
    }
  }

  lemma CompletesAppend(a: seq<Entry>, b: seq<Entry>, p: nat, c: nat, prev: Lines, curr: Lines)
    ensures Completes(a + b, p, c, prev, curr) <==>
            Steps(a, p, c, prev, curr) && Completes(b, p + |PrevNumbers(a)|, c + |CurrNumbers(a)|, prev, curr)
  {
    StepsAppend(a, b, p, c, prev, curr);
    PrevNumbersAppend(a, b);
    CurrNumbersAppend(a, b);
  }

  lemma CompletesThree(w: seq<Entry>, a: seq<Entry>, b: seq<Entry>, d: seq<Entry>, p: nat, c: nat, k: nat,
                       prev: Lines, curr: Lines)
    requires w == a + (b + d)
    requires |PrevNumbers(a)| == |CurrNumbers(a)| == k
    ensures
      var p1, c1 := p + k, c + k;
      var p2, c2 := p1 + |PrevNumbers(b)|, c1 + |CurrNumbers(b)|;
      Completes(w, p, c, prev, curr) <==>
        Steps(a, p, c, prev, curr) && Steps(b, p1, c1, prev, curr) && Completes(d, p2, c2, prev, curr)
  {
    CompletesAppend(a, b + d, p, c, prev, curr);
    CompletesAppend(b, d, p + k, c + k, prev, curr);
  }

  lemma {:induction false} StepsPrevNumbers(es: seq<Entry>, p: nat, c: nat, prev: Lines, curr: Lines)
    requires Steps(es, p, c, prev, curr)
    ensures CountsFrom(PrevNumbers(es), p)
  {
    if es != [] {
      var p', c' := PrevNext(es[0], p), CurrNext(es[0], c);
      StepsPrevNumbers(es[1..], p', c', prev, curr);
      CountsCons(p, PrevNumbers(es[1..]), p);
    }
  }

  lemma {:induction false} StepsCurrNumbers(es: seq<Entry>, p: nat, c: nat, prev: Lines, curr: Lines)
    requires Steps(es, p, c, prev, curr)
    ensures CountsFrom(CurrNumbers(es), c)
  {
    if es != [] {
      var p', c' := PrevNext(es[0], p), CurrNext(es[0], c);
      StepsCurrNumbers(es[1..], p', c', prev, curr);
      CountsCons(c, CurrNumbers(es[1..]), c);
    }
  }

  lemma {:induction false} StepsAgree(es: seq<Entry>, p: nat, c: nat, prev: Lines, curr: Lines, i: nat)
    requires Steps(es, p, c, prev, curr)
    requires i < |es| && es[i].Context?
    ensures es[i].prevLn < |prev| && es[i].currLn < |curr| && prev[es[i].prevLn] == curr[es[i].currLn]
  {
    if i > 0 {
      var p', c' := PrevNext(es[0], p), CurrNext(es[0], c);
      StepsAgree(es[1..], p', c', prev, curr, i - 1);
    }
  }

  lemma {:induction false} NumbersSteps(es: seq<Entry>, p: nat, c: nat, prev: Lines, curr: Lines)
    requires p + |PrevNumbers(es)| == |prev| && CountsFrom(PrevNumbers(es), p)
    requires c + |CurrNumbers(es)| == |curr| && CountsFrom(CurrNumbers(es), c)
    requires forall i :: 0 <= i < |es| && es[i].Context? ==>
               es[i].prevLn < |prev| && es[i].currLn < |curr| && prev[es[i].prevLn] == curr[es[i].currLn]
    ensures Steps(es, p, c, prev, curr)
  {
    if es != [] {
      var rest := es[1..];
      if !es[0].Added? {
        CountsCons(es[0].prevLn, PrevNumbers(rest), p);
      }
      if !es[0].Removed? {
        CountsCons(es[0].currLn, CurrNumbers(rest), c);
      }
      var p', c' := PrevNext(es[0], p), CurrNext(es[0], c);
      NumbersSteps(rest, p', c', prev, curr);
    }
  }

  lemma EditScriptIffCompletes(es: seq<Entry>, prev: Lines, curr: Lines)
    ensures IsEditScript(es, prev, curr) <==> Completes(es, 0, 0, prev, curr)
  {
    if IsEditScript(es, prev, curr) {
      NumbersSteps(es, 0, 0, prev, curr);
    }
    if Completes(es, 0, 0, prev, curr) {
      StepsPrevNumbers(es, 0, 0, prev, curr);
      StepsCurrNumbers(es, 0, 0, prev, curr);
      forall i | 0 <= i < |es| && es[i].Context?
        ensures es[i].prevLn < |prev| && es[i].currLn < |curr| && prev[es[i].prevLn] == curr[es[i].currLn]
      {
        StepsAgree(es, 0, 0, prev, curr, i);
      }
    }
  }

  lemma EqualSlicesCons(p: nat, c: nat, k: nat, prev: Lines, curr: Lines)
    requires 0 < k && p + k <= |prev| && c + k <= |curr|
    ensures prev[p..p + k] == curr[c..c + k] <==>
            prev[p] == curr[c] && prev[p + 1..p + k] == curr[c + 1..c + k]
  {
    var a, b := prev[p..p + k], curr[c..c + k];
    assert a[0] == prev[p] && a[1..] == prev[p + 1..p + k];
    assert b[0] == curr[c] && b[1..] == curr[c + 1..c + k];
    if prev[p] == curr[c] && prev[p + 1..p + k] == curr[c + 1..c + k] {
      assert a == [a[0]] + a[1..];
      assert b == [b[0]] + b[1..];
    }
  }

  /** The counts of one entry and the rest. */
  lemma NumbersCons(es: seq<Entry>, p: nat, c: nat)
    requires es != []
    ensures p + |PrevNumbers(es)| == PrevNext(es[0], p) + |PrevNumbers(es[1..])|
    ensures c + |CurrNumbers(es)| == CurrNext(es[0], c) + |CurrNumbers(es[1..])|
  {
  }
}
