/** Change lists that name lines which do not exist: the walk of crates/config-diff/src/difftastic.rs takes such
    a number as if it were not there. */
module MissingLines {
  import opened Options
  import opened Numbers
  import opened EditScripts
  import opened LineWalk

  /** The line number, if the file has that line. */
  function Known(line: Option<nat>, len: nat): Option<nat> {
    if line.Some? && line.value < len then line else None
  }

  function Existing(changes: seq<LineChange>, np: nat, nc: nat): seq<LineChange> {
    if changes == [] then []
    else
      [LineChange(Known(changes[0].prevLine, np), Known(changes[0].currLine, nc))] + Existing(changes[1..], np, nc)
  }

  /** One of the files has no more lines. */
  predicate Exhausted(p: nat, c: nat, np: nat, nc: nat) {
    p >= np || c >= nc
  }

  lemma {:induction false} ExhaustedRun(p: nat, c: nat, pt: nat, ct: nat, np: nat, nc: nat)
    requires Exhausted(p, c, np, nc)
    ensures ContextRun(p, c, pt, ct, np, nc) == []
    decreases pt - p
  {
    if p < pt && c < ct {
      ExhaustedRun(p + 1, c + 1, pt, ct, np, nc);
    }
  }

  /** A run beyond the end of a file shows what a run up to the end shows. */
  lemma {:induction false} RunCut(p: nat, c: nat, pt: nat, ct: nat, np: nat, nc: nat)
    ensures ContextRun(p, c, pt, ct, np, nc) == ContextRun(p, c, Min(pt, np), Min(ct, nc), np, nc)
    decreases pt - p
  {
    if Exhausted(p, c, np, nc) {
      ExhaustedRun(p, c, pt, ct, np, nc);
      ExhaustedRun(p, c, Min(pt, np), Min(ct, nc), np, nc);
    } else if p < pt && c < ct {
      RunCut(p + 1, c + 1, pt, ct, np, nc);
    }
  }

  lemma SegmentCut(ch: LineChange, p: nat, c: nat, np: nat, nc: nat)
    ensures Segment(ch, p, c, np, nc)
         == Segment(LineChange(Known(ch.prevLine, np), Known(ch.currLine, nc)), p, c, np, nc)
  {
    RunCut(p, c, Target(ch.prevLine, np), Target(ch.currLine, nc), np, nc);
  }

  /** Both walks stand at the same lines, or both have shown all context there is. */
  predicate Together(p: nat, c: nat, p': nat, c': nat, np: nat, nc: nat) {
    (p == p' && c == c') || (Exhausted(p, c, np, nc) && Exhausted(p', c', np, nc))
  }

  lemma StepTogether(ch: LineChange, p: nat, c: nat, p': nat, c': nat, np: nat, nc: nat)
    requires Together(p, c, p', c', np, nc)
    ensures
      var known := LineChange(Known(ch.prevLine, np), Known(ch.currLine, nc));
      && Segment(ch, p, c, np, nc) == Segment(known, p', c', np, nc)
      && Together(NextPrev(ch, p, c, np, nc), NextCurr(ch, p, c, np, nc), NextPrev(known, p', c', np, nc),
                  NextCurr(known, p', c', np, nc), np, nc)
  {
    var known := LineChange(Known(ch.prevLine, np), Known(ch.currLine, nc));
    if p == p' && c == c' {
      SegmentCut(ch, p, c, np, nc);
    } else {
      ExhaustedRun(p, c, Target(ch.prevLine, np), Target(ch.currLine, nc), np, nc);
      ExhaustedRun(p', c', Target(known.prevLine, np), Target(known.currLine, nc), np, nc);
    }
  }

  lemma {:induction false} WalkTogether(changes: seq<LineChange>, p: nat, c: nat, p': nat, c': nat, np: nat, nc: nat)
    requires Together(p, c, p', c', np, nc)
    ensures Walk(changes, p, c, np, nc) == Walk(Existing(changes, np, nc), p', c', np, nc)
    decreases |changes|
  {
    if changes == [] {
      if !(p == p' && c == c') {
        ExhaustedRun(p, c, np, nc, np, nc);
        ExhaustedRun(p', c', np, nc, np, nc);
      }
    } else {
      var ch := changes[0];
      var known := LineChange(Known(ch.prevLine, np), Known(ch.currLine, nc));
      StepTogether(ch, p, c, p', c', np, nc);
      assert Existing(changes, np, nc)[1..] == Existing(changes[1..], np, nc);
      WalkTogether(changes[1..], NextPrev(ch, p, c, np, nc), NextCurr(ch, p, c, np, nc),
                   NextPrev(known, p', c', np, nc), NextCurr(known, p', c', np, nc), np, nc);
    }
  }

  /** For every change list, a number of a line that does not exist is as good as no number. */
  lemma MissingLinesAreIgnored(changes: seq<LineChange>, np: nat, nc: nat)
    ensures Walk(changes, 0, 0, np, nc) == Walk(Existing(changes, np, nc), 0, 0, np, nc)
  {
    WalkTogether(changes, 0, 0, 0, 0, np, nc);
  }

  /** A line that the change names exists. */
  predicate NamesOne(ch: LineChange, np: nat, nc: nat) {
    (ch.prevLine.Some? && ch.prevLine.value < np) || (ch.currLine.Some? && ch.currLine.value < nc)
  }

  lemma {:induction false} ExistingInRange(changes: seq<LineChange>, np: nat, nc: nat)
    requires forall k :: 0 <= k < |changes| ==> NamesOne(changes[k], np, nc)
    ensures InRange(Existing(changes, np, nc), np, nc)
  {
    if changes != [] {
      assert NamesOne(changes[0], np, nc);
      ExistingInRange(changes[1..], np, nc);
    }
  }

  /** So when every change names some existing line, the entries are an edit script if and only if the list of
      the existing lines is faithful. */
  lemma EditScriptIffExistingFaithful(changes: seq<LineChange>, prev: Lines, curr: Lines)
    requires forall k :: 0 <= k < |changes| ==> NamesOne(changes[k], |prev|, |curr|)
    ensures IsEditScript(Walk(changes, 0, 0, |prev|, |curr|), prev, curr)
            <==> Faithful(Existing(changes, |prev|, |curr|), prev, curr)
  {
    MissingLinesAreIgnored(changes, |prev|, |curr|);
    ExistingInRange(changes, |prev|, |curr|);
    EditScriptIffFaithful(Existing(changes, |prev|, |curr|), prev, curr);
  }
}
