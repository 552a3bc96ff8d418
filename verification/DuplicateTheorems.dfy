/** Where the rows of the control plane come from, and so what its answer "duplicate" means. */
module DuplicateTheorems {
  import opened IdempotencyKeys
  import I = Ingest
  import IT = IngestTheorems
  import opened Spool
  import opened Delivery
  import opened DeliveryTheorems

  // ----- rows -----------------------------------------------------------------------------------------

  predicate FromTransition(row: I.Row, t: Transition) {
    Separable(t) && row.key == DeriveKey(t) && row.host == t.host && row.path == t.path
  }

  ghost predicate Derived(row: I.Row) {
    exists t :: FromTransition(row, t)
  }

  ghost predicate AllDerived(rows: seq<I.Row>) {
    forall k :: 0 <= k < |rows| ==> Derived(rows[k])
  }

  /** The body is that of an event of some agent. */
  ghost predicate PostedByAgent(body: I.Body) {
    exists event :: body == BodyOf(event) && Separable(event.transition)
  }

  lemma PostKeepsDerived(s: I.Server, body: I.Body, c: I.Conditions)
    requires AllDerived(s.rows) && PostedByAgent(body)
    ensures AllDerived(I.IngestOnce(s, body, c).0.rows)
  {
    var event :| body == BodyOf(event) && Separable(event.transition);
    var row := I.RowFor(s, body.event.value, c);
    assert FromTransition(row, event.transition);
  }

  lemma ServerKeepsDerived(s: I.Server, step: IT.Step)
    requires AllDerived(s.rows) && (step.Post? ==> PostedByAgent(step.body))
    ensures AllDerived(IT.Do(s, step).rows)
  {
    if step.Post? {
      PostKeepsDerived(s, step.body, step.c);
    }
  }

  // ----- the agent --------------------------------------------------------------------------------------

  predicate PlainHashes(hashes: map<string, string>) {
    forall path :: path in hashes ==> ':' !in hashes[path]
  }

  predicate PlainFiles(files: map<I.EventId, SpoolEntry>) {
    forall id :: id in files ==> Separable(files[id].event.transition)
  }

  /** No colon in the host id, the stored hashes and the minutes of the events in the spool. */
  predicate Plain(s: System) {
    && ':' !in s.host && PlainHashes(s.store.current) && PlainHashes(s.store.saved) && PlainFiles(s.spool.files)
    && (s.phase.Spooling? ==> Separable(s.phase.event.transition))
  }

  /** What comes from outside holds no colon where a key must not, and other posts are those of agents. */
  ghost predicate PlainAction(a: Action) {
    && (a.Take? ==> ':' !in a.file.minute && (a.state.Content? ==> ':' !in a.state.hash))
    && (a.Baseline? ==> ':' !in a.hash)
    && (a.Elsewhere? && a.step.Post? ==> PostedByAgent(a.step.body))
  }

  ghost predicate AllPlain(actions: seq<Action>) {
    forall k :: 0 <= k < |actions| ==> PlainAction(actions[k])
  }

  lemma TakeKeepsPlain(s: System, a: Action)
    requires Plain(s) && PlainAction(a) && a.Take?
    ensures Plain(Do(s, a))
  {
  }

  lemma StoreKeepsPlain(s: System, a: Action)
    requires Safe(s) && Plain(s) && PlainAction(a)
    requires a.Start? || a.Baseline? || a.KeepContent? || a.SetCurrent? || a.Evict?
    ensures Plain(Do(s, a))
  {
  }

  lemma EntryKeepsPlain(s: System, a: Action)
    requires Plain(s) && a.WriteEntryFile?
    ensures Plain(Do(s, a))
  {
  }

  lemma StatusKeepsPlain(s: System, a: Action)
    requires Plain(s) && a.WriteStatusFile?
    ensures Plain(Do(s, a))
  {
  }

  lemma CountKeepsPlain(s: System, a: Action)
    requires Plain(s) && a.Count?
    ensures Plain(Do(s, a))
  {
  }

  lemma DeliveryKeepsPlain(s: System, a: Action)
    requires Plain(s) && (a.Send? || a.WriteIndexFile?)
    ensures Plain(Do(s, a))
  {
  }

  lemma OthersKeepPlain(s: System, a: Action)
    requires Plain(s) && (a.Crash? || a.List? || a.NextEntry? || a.Elsewhere?)
    ensures Plain(Do(s, a))
  {
  }

  lemma StepKeepsPlain(s: System, a: Action)
    requires Safe(s) && Plain(s) && PlainAction(a)
    ensures Plain(Do(s, a))
  {
    if a.Take? {
      TakeKeepsPlain(s, a);
    } else if a.WriteEntryFile? {
      EntryKeepsPlain(s, a);
    } else if a.WriteStatusFile? {
      StatusKeepsPlain(s, a);
    } else if a.Count? {
      CountKeepsPlain(s, a);
    } else if a.Send? || a.WriteIndexFile? {
      DeliveryKeepsPlain(s, a);
    } else if a.Crash? || a.List? || a.NextEntry? || a.Elsewhere? {
      OthersKeepPlain(s, a);
    } else {
      StoreKeepsPlain(s, a);
    }
  }

  lemma StepKeepsDerived(s: System, a: Action)
    requires Safe(s) && Plain(s) && PlainAction(a) && AllDerived(s.server.rows)
    ensures AllDerived(Do(s, a).server.rows)
  {
    if a.Elsewhere? {
      ServerKeepsDerived(s.server, a.step);
    } else if a.Send? && s.phase.Publishing? {
      var event := s.phase.event;
      assert Separable(event.transition) && PostedByAgent(BodyOf(event));
      PostKeepsDerived(s.server, BodyOf(event), a.c);
    }
  }

  /** Over every run: each row of the control plane has the key, the host and the path of one transition. */
  lemma {:induction false} RowsComeFromTransitions(s: System, actions: seq<Action>)
    requires Safe(s) && Plain(s) && AllDerived(s.server.rows) && AllPlain(actions)
    ensures AllDerived(Run(s, actions).server.rows) && Plain(Run(s, actions))
    decreases |actions|
  {
    if actions != [] {
      StepKeepsSafe(s, actions[0]);
      StepKeepsPlain(s, actions[0]);
      StepKeepsDerived(s, actions[0]);
      RowsComeFromTransitions(Do(s, actions[0]), actions[1..]);
    }
  }

  // ----- what a duplicate answer means ------------------------------------------------------------------

  lemma {:induction false} RowWithKeyIsDerived(rows: seq<I.Row>, key: string)
    requires AllDerived(rows) && I.HasKey(rows, key)
    ensures Derived(I.RowWithKey(rows, key))
  {
    if rows[|rows| - 1].key != key {
      RowWithKeyIsDerived(rows[..|rows| - 1], key);
    }
  }

  lemma SameKeySameTransition(rows: seq<I.Row>, event: ChangeEvent)
    requires AllDerived(rows) && I.HasKey(rows, KeyOf(event)) && Separable(event.transition)
    ensures FromTransition(I.RowWithKey(rows, KeyOf(event)), event.transition)
  {
    var row := I.RowWithKey(rows, KeyOf(event));
    RowWithKeyIsDerived(rows, KeyOf(event));
    var t :| FromTransition(row, t);
    KeyIsInjective(event.transition, t);
  }

  /** Over every run: when the control plane answers an event that the agent publishes with "duplicate", the
      row that it names is of the same host, path, hashes and minute. */
  lemma DuplicateIsTheSameTransition(s: System, actions: seq<Action>, c: I.Conditions)
    requires Safe(s) && Plain(s) && AllDerived(s.server.rows) && AllPlain(actions)
    requires Run(s, actions).phase.Publishing?
    requires I.IngestOnce(Run(s, actions).server, BodyOf(Run(s, actions).phase.event), c).1.Duplicate?
    ensures
      var s' := Run(s, actions);
      var event := s'.phase.event;
      && I.HasKey(s'.server.rows, KeyOf(event))
      && I.IngestOnce(s'.server, BodyOf(event), c).1.id == I.RowWithKey(s'.server.rows, KeyOf(event)).id
      && FromTransition(I.RowWithKey(s'.server.rows, KeyOf(event)), event.transition)
  {
    var s' := Run(s, actions);
    RunsAreSafe(s, actions);
    RowsComeFromTransitions(s, actions);
    assert s'.phase.event.id in s'.spool.files;
    SameKeySameTransition(s'.server.rows, s'.phase.event);
  }

  lemma {:induction false} KeyInRows(rows: seq<I.Row>, key: string)
    ensures I.HasKey(rows, key) <==> exists k :: 0 <= k < |rows| && rows[k].key == key
  {
    if rows != [] {
      var before := rows[..|rows| - 1];
      KeyInRows(before, key);
      if k :| 0 <= k < |rows| && rows[k].key == key {
        assert k < |before| ==> before[k].key == key;
      }
      if k :| 0 <= k < |before| && before[k].key == key {
        assert rows[k].key == key;
      }
    }
  }

  ghost predicate Recorded(rows: seq<I.Row>, t: Transition) {
    exists k :: 0 <= k < |rows| && FromTransition(rows[k], t)
  }

  lemma KeyIsRecorded(rows: seq<I.Row>, event: ChangeEvent)
    requires AllDerived(rows) && Separable(event.transition)
    ensures I.HasKey(rows, KeyOf(event)) <==> Recorded(rows, event.transition)
  {
    KeyInRows(rows, KeyOf(event));
    if I.HasKey(rows, KeyOf(event)) {
      SameKeySameTransition(rows, event);
      var row := I.RowWithKey(rows, KeyOf(event));
      var k :| 0 <= k < |rows| && rows[k] == row;
      assert FromTransition(rows[k], event.transition);
    }
  }

  /** So with a database that works, an event with a new id adds no row if and only if a row of the same host,
      path, hashes and minute is there: a file that makes one change twice in a minute is recorded once. The
      agent sees a success for the swallowed event and marks it as delivered, unless the reply is lost. */
  lemma SwallowedIffRecorded(s: I.Server, event: ChangeEvent, c: I.Conditions, replyLost: bool, parses: bool)
    requires AllDerived(s.rows) && Separable(event.transition) && !I.HasId(s.rows, event.id)
    requires !c.existsFails && !c.fetchFails && !c.insertFails
    ensures
      var (after, outcome) := I.IngestOnce(s, BodyOf(event), c);
      && (after.rows == s.rows <==> Recorded(s.rows, event.transition))
      && (Recorded(s.rows, event.transition) ==>
            after == s && (I.PublishSucceeds(outcome, replyLost, parses) <==> !replyLost))
  {
    KeyIsRecorded(s.rows, event);
    IT.SuccessSeenIff(s, BodyOf(event), c, replyLost, parses);
  }
}
