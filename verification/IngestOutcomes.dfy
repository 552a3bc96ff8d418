/** What one call of the control plane does to the table and to the screens, in terms of what was posted. */
module IngestOutcomes {
  import opened Options
  import opened Ingest
  import opened IngestTheorems

  function IdOf(event: EventData, c: Conditions): EventId {
    match event.id
    case Some(id) => id
    case None => c.newId
  }

  /** A post that the control plane can tell from all the events it has. */
  predicate IsNew(s: Server, body: Body, c: Conditions) {
    && body.schemaVersion == "1.0" && body.event.Some? && body.event.value.key != ""
    && !c.existsFails && !HasKey(s.rows, body.event.value.key)
  }

  predicate IsKnown(s: Server, body: Body, c: Conditions) {
    && body.schemaVersion == "1.0" && body.event.Some? && body.event.value.key != ""
    && !c.existsFails && HasKey(s.rows, body.event.value.key)
  }

  /** A key or an id is known if and only if some row has it. */
  lemma {:induction false} KnownIff(rows: seq<Row>, key: string, id: EventId)
    ensures HasKey(rows, key) <==> exists row :: row in rows && row.key == key
    ensures HasId(rows, id) <==> exists row :: row in rows && row.id == id
  {
    if rows != [] {
      var n := |rows| - 1;
      KnownIff(rows[..n], key, id);
      assert rows == rows[..n] + [rows[n]];
    }
  }

  /** The status of the answer, exactly: 400 for a body that is not well formed, 409 for a known key, 201 for
      an event that was stored and whose host was found, and 500 for every failure. */
  lemma StatusIff(s: Server, body: Body, c: Conditions)
    ensures
      var status := StatusOf(IngestOnce(s, body, c).1);
      && (status == 400 <==> !(body.schemaVersion == "1.0" && body.event.Some? && body.event.value.key != ""))
      && (status == 409 <==> IsKnown(s, body, c) && !c.fetchFails)
      && (status == 201 <==> IsNew(s, body, c) && !c.insertFails && !HasId(s.rows, IdOf(body.event.value, c))
                             && !c.hostFails)
      && status in {201, 400, 409, 500}
  {
  }

  /** Why a body is refused: its version comes before a missing event, and that before a missing key. */
  lemma RefusedFor(s: Server, body: Body, c: Conditions)
    ensures
      var outcome := IngestOnce(s, body, c).1;
      && (body.schemaVersion != "1.0" ==>
            outcome == Rejected("unsupported schema version: " + body.schemaVersion))
      && (body.schemaVersion == "1.0" && body.event.None? ==> outcome == Rejected("missing event"))
      && (body.schemaVersion == "1.0" && body.event.Some? && body.event.value.key == "" ==>
            outcome == Rejected("missing idempotency_key"))
  {
  }

  /** A row is added if and only if the event is new and can be inserted, even if the call then fails; every
      other call leaves the table, the messages and the ring as they were. */
  lemma RowAddedIff(s: Server, body: Body, c: Conditions)
    ensures
      var s' := IngestOnce(s, body, c).0;
      && (s'.rows != s.rows <==> IsNew(s, body, c) && !c.insertFails && !HasId(s.rows, IdOf(body.event.value, c)))
      && (s'.rows == s.rows ==> s' == s)
      && (s'.sent != s.sent ==> IngestOnce(s, body, c).1.Accepted?)
  {
    if body.event.Some? {
      var row := RowFor(s, body.event.value, c);
      assert |s.rows + [row]| == |s.rows| + 1;
    }
  }

  /** The row holds what was posted, at the time of the call. */
  lemma RowHoldsTheEvent(s: Server, body: Body, c: Conditions)
    requires IngestOnce(s, body, c).0.rows != s.rows
    ensures
      var s', event := IngestOnce(s, body, c).0, body.event.value;
      && |s'.rows| == |s.rows| + 1 && s'.rows[..|s.rows|] == s.rows
      && (var row := s'.rows[|s.rows|];
          && row.id == IdOf(event, c) && row.key == event.key && row.host == event.host && row.path == event.path
          && row.kind == event.kind && row.time == c.now && row.current == c.snapshot)
  {
  }

  /** The row starts from the snapshot of a row of its file that no other is newer than, if there is one and
      the look-up worked, and from none otherwise. */
  lemma RowStartsFromTheNewest(s: Server, body: Body, c: Conditions)
    requires IngestOnce(s, body, c).0.rows != s.rows
    ensures
      var event, row := body.event.value, IngestOnce(s, body, c).0.rows[|s.rows|];
      if event.path == "" || c.lookupFails
         || (forall r :: r in s.rows ==> !(r.host == event.host && r.path == event.path)) then
        row.previous == None
      else
        exists r :: r in s.rows && r.host == event.host && r.path == event.path
                    && NoneNewer(s.rows, event.host, event.path, r.time) && row.previous == r.current
  {
    var event := body.event.value;
    var newest := NewestRows(s.rows, event.host, event.path);
    EmptyIffNoRow(s.rows, event.host, event.path);
    if newest != [] {
      var r := Pick(newest, c.choice);
      assert r in newest;
      NewestRowsAreNewest(s.rows, event.host, event.path, r);
    }
  }

  /** An accepted event is broadcast once, with the fields that were posted and the environment of its host,
      and its id is the newest in the ring. */
  lemma AcceptedEventIsBroadcast(s: Server, body: Body, c: Conditions)
    requires IngestOnce(s, body, c).1.Accepted?
    ensures
      var (s', outcome) := IngestOnce(s, body, c);
      var event := body.event.value;
      && outcome.id == IdOf(event, c)
      && |s'.sent| == |s.sent| + 1 && s'.sent[..|s.sent|] == s.sent
      && (var m := s'.sent[|s.sent|];
          && m.id == IdOf(event, c) && m.host == event.host && m.path == event.path && m.kind == event.kind
          && m.time == c.now && m.environment == c.environment)
      && s'.ring != [] && s'.ring[|s'.ring| - 1] == IdOf(event, c)
  {
  }

  lemma {:induction false} RowWithIdAt(rows: seq<Row>, k: nat)
    requires UniqueRows(rows) && k < |rows|
    ensures HasId(rows, rows[k].id) && RowWithId(rows, rows[k].id) == rows[k]
  {
    var n := |rows| - 1;
    if k < n {
      RowWithIdAt(rows[..n], k);
    }
  }

  /** A notification about any row forwards that row's fields, once, if and only if its id is not in the ring
      and the row can be fetched. */
  lemma ForwardedEventIsTheRow(s: Server, k: nat, fetchFails: bool, environment: string)
    requires UniqueRows(s.rows) && k < |s.rows|
    ensures
      var s', row := NotifyOnce(s, s.rows[k].id, fetchFails, environment), s.rows[k];
      if row.id in s.ring || fetchFails then s' == s
      else
        && |s'.sent| == |s.sent| + 1 && s' == s.(sent := s.sent + [s'.sent[|s.sent|]])
        && (var m := s'.sent[|s.sent|];
            && m.id == row.id && m.host == row.host && m.path == row.path && m.kind == row.kind && m.time == row.time
            && m.environment == environment)
  {
    RowWithIdAt(s.rows, k);
  }

  /** A notification about an unknown event does nothing. */
  lemma UnknownNotificationIsIgnored(s: Server, id: EventId, fetchFails: bool, environment: string)
    requires forall row :: row in s.rows ==> row.id != id
    ensures NotifyOnce(s, id, fetchFails, environment) == s
  {
    if HasId(s.rows, id) {
      var row := RowWithId(s.rows, id);
      assert false;
    }
  }

  // ----- over every run -------------------------------------------------------------------------------

  /** The row is what this step posted, at the time of the step. */
  predicate IsPosted(row: Row, step: Step) {
    step.Post? && step.body.event.Some?
    && (var event, c := step.body.event.value, step.c;
        && row.id == IdOf(event, c) && row.key == event.key && row.host == event.host && row.path == event.path
        && row.kind == event.kind && row.time == c.now && row.current == c.snapshot)
  }

  predicate WasPosted(row: Row, steps: seq<Step>) {
    exists k :: 0 <= k < |steps| && IsPosted(row, steps[k])
  }

  predicate AllPosted(rows: seq<Row>, steps: seq<Step>) {
    forall k :: 0 <= k < |rows| ==> WasPosted(rows[k], steps)
  }

  lemma LaterStepsToo(row: Row, steps: seq<Step>, step: Step)
    requires WasPosted(row, steps) || IsPosted(row, step)
    ensures WasPosted(row, steps + [step])
  {
    if WasPosted(row, steps) {
      var k :| 0 <= k < |steps| && IsPosted(row, steps[k]);
      assert (steps + [step])[k] == steps[k];
    } else {
      assert (steps + [step])[|steps|] == step;
    }
  }

  lemma StepKeepsPosted(s: Server, step: Step, before: seq<Step>)
    requires AllPosted(s.rows, before)
    ensures AllPosted(Do(s, step).rows, before + [step])
  {
    var rows := Do(s, step).rows;
    if rows != s.rows {
      RowHoldsTheEvent(s, step.body, step.c);
    }
    forall k | 0 <= k < |rows| ensures WasPosted(rows[k], before + [step]) {
      LaterStepsToo(rows[k], before, step);
    }
  }

  lemma {:induction false} RunKeepsPosted(s: Server, steps: seq<Step>, before: seq<Step>)
    requires AllPosted(s.rows, before)
    ensures AllPosted(Run(s, steps).rows, before + steps)
    decreases |steps|
  {
    if steps == [] {
      assert before + steps == before;
    } else {
      StepKeepsPosted(s, steps[0], before);
      RunKeepsPosted(Do(s, steps[0]), steps[1..], before + [steps[0]]);
      assert before + [steps[0]] + steps[1..] == before + steps;
    }
  }

  /** The message shows the fields of the event that this step posted. */
  predicate Shows(m: Message, step: Step) {
    step.Post? && step.body.event.Some?
    && (var event := step.body.event.value;
        && m.id == IdOf(event, step.c) && m.host == event.host && m.path == event.path && m.kind == event.kind
        && m.time == step.c.now)
  }

  /** From an empty table, over every run of posts and notifications: each message on the screens shows the
      host, path, kind and time of an event that was posted, whether it was sent by the call or forwarded. */
  lemma MessagesShowPostedEvents(s: Server, steps: seq<Step>, k: nat)
    requires s == Server([], [], [], []) && k < |Run(s, steps).sent|
    ensures exists i :: 0 <= i < |steps| && Shows(Run(s, steps).sent[k], steps[i])
  {
    var s' := Run(s, steps);
    RunsAreSound(s, steps);
    RunKeepsPosted(s, steps, []);
    assert [] + steps == steps && Stored(s'.rows, s'.sent[k]);
    var row := RowWithId(s'.rows, s'.sent[k].id);
    var j :| 0 <= j < |s'.rows| && s'.rows[j] == row;
    assert WasPosted(s'.rows[j], steps);
    var i :| 0 <= i < |steps| && IsPosted(row, steps[i]);
    assert Shows(s'.sent[k], steps[i]);
  }
}
