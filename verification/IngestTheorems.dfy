/** What the control plane's table and broadcasts keep over every run of ingests and notifications. */
module IngestTheorems {
  import opened Options
  import opened Ingest

  datatype Step = Post(body: Body, c: Conditions) | Notify(id: EventId, fetchFails: bool, environment: string)

  function Do(s: Server, step: Step): Server {
    match step
    case Post(body, c) => IngestOnce(s, body, c).0
    case Notify(id, fetchFails, environment) => NotifyOnce(s, id, fetchFails, environment)
  }

  function Run(s: Server, steps: seq<Step>): Server
    decreases |steps|
  {
    if steps == [] then s else Run(Do(s, steps[0]), steps[1..])
  }

  // ----- the table ----------------------------------------------------------------------------------

  predicate UniqueRows(rows: seq<Row>) {
    rows == [] ||
    (UniqueRows(rows[..|rows| - 1])
     && !HasKey(rows[..|rows| - 1], rows[|rows| - 1].key) && !HasId(rows[..|rows| - 1], rows[|rows| - 1].id))
  }

  /** The snapshot of the last row of a file. */
  function LastSnapshot(rows: seq<Row>, host: string, path: string): Option<SnapshotId> {
    if rows == [] then None
    else if OfFile(rows[|rows| - 1], host, path) then rows[|rows| - 1].current
    else LastSnapshot(rows[..|rows| - 1], host, path)
  }

  /** Each row of a named file starts from the snapshot its file's row before it ended with. */
  predicate Linked(rows: seq<Row>) {
    rows == [] ||
    (var last, before := rows[|rows| - 1], rows[..|rows| - 1];
     Linked(before) && (last.path != "" ==> last.previous == LastSnapshot(before, last.host, last.path)))
  }

  /** The message tells the host, path, kind and time of the row with its id. */
  predicate Stored(rows: seq<Row>, m: Message) {
    HasId(rows, m.id)
    && (var row := RowWithId(rows, m.id);
        m.host == row.host && m.path == row.path && m.kind == row.kind && m.time == row.time)
  }

  predicate AllStored(rows: seq<Row>, sent: seq<Message>) {
    forall k :: 0 <= k < |sent| ==> Stored(rows, sent[k])
  }

  function Recent(ids: seq<EventId>): seq<EventId> {
    if |ids| <= RING_SIZE then ids else ids[|ids| - RING_SIZE..]
  }

  predicate PushedOnce(pushed: seq<EventId>) {
    forall i, j :: 0 <= i < j < |pushed| ==> pushed[i] != pushed[j]
  }

  predicate PushedStored(rows: seq<Row>, pushed: seq<EventId>) {
    forall k :: 0 <= k < |pushed| ==> HasId(rows, pushed[k])
  }

  predicate Sound(s: Server) {
    && UniqueRows(s.rows) && AllStored(s.rows, s.sent)
    && s.ring == Recent(s.pushed) && PushedOnce(s.pushed) && PushedStored(s.rows, s.pushed)
  }

  lemma InsertKeepsRows(rows: seq<Row>, row: Row, m: Message)
    requires UniqueRows(rows) && !HasKey(rows, row.key) && !HasId(rows, row.id)
    ensures UniqueRows(rows + [row]) && HasId(rows + [row], row.id) && RowWithId(rows + [row], row.id) == row
    ensures HasId(rows, m.id) ==> HasId(rows + [row], m.id) && RowWithId(rows + [row], m.id) == RowWithId(rows, m.id)
  {
    assert (rows + [row])[..|rows|] == rows && (rows + [row])[|rows|] == row;
  }

  lemma InsertKeepsIds(rows: seq<Row>, row: Row, id: EventId)
    ensures HasId(rows + [row], id) <==> HasId(rows, id) || row.id == id
    ensures HasKey(rows + [row], row.key)
  {
    assert (rows + [row])[..|rows|] == rows && (rows + [row])[|rows|] == row;
  }

  lemma InsertKeepsSent(rows: seq<Row>, row: Row, sent: seq<Message>)
    requires UniqueRows(rows) && !HasKey(rows, row.key) && !HasId(rows, row.id) && AllStored(rows, sent)
    ensures AllStored(rows + [row], sent)
  {
    forall k | 0 <= k < |sent| ensures Stored(rows + [row], sent[k]) {
      assert Stored(rows, sent[k]);
      InsertKeepsRows(rows, row, sent[k]);
    }
  }

  lemma PushKeepsRing(pushed: seq<EventId>, id: EventId)
    ensures PushRing(Recent(pushed), id) == Recent(pushed + [id])
  {
  }

  lemma OneMoreStored(rows: seq<Row>, sent: seq<Message>, m: Message)
    requires AllStored(rows, sent) && Stored(rows, m)
    ensures AllStored(rows, sent + [m])
  {
  }

  lemma OneMorePushed(rows: seq<Row>, row: Row, pushed: seq<EventId>)
    requires PushedOnce(pushed) && PushedStored(rows, pushed) && !HasId(rows, row.id)
    ensures PushedOnce(pushed + [row.id]) && PushedStored(rows + [row], pushed + [row.id])
  {
    forall k | 0 <= k < |pushed| ensures HasId(rows + [row], pushed[k]) && pushed[k] != row.id {
      assert HasId(rows, pushed[k]);
      InsertKeepsIds(rows, row, pushed[k]);
    }
    InsertKeepsIds(rows, row, row.id);
  }

  lemma StoreKeepsSound(s: Server, event: EventData, c: Conditions)
    requires Sound(s) && !HasKey(s.rows, event.key)
    ensures Sound(Store(s, event, c).0)
  {
    var row := RowFor(s, event, c);
    if !c.insertFails && !HasId(s.rows, row.id) {
      var m := MessageOf(row, c.environment);
      InsertKeepsRows(s.rows, row, m);
      InsertKeepsSent(s.rows, row, s.sent);
      OneMoreStored(s.rows + [row], s.sent, m);
      OneMorePushed(s.rows, row, s.pushed);
      PushKeepsRing(s.pushed, row.id);
    }
  }

  lemma StepKeepsSound(s: Server, step: Step)
    requires Sound(s)
    ensures Sound(Do(s, step))
  {
    match step {
      case Post(body, c) =>
        if body.event.Some? && !HasKey(s.rows, body.event.value.key) {
          StoreKeepsSound(s, body.event.value, c);
        }
      case Notify(id, _, _) =>
    }
  }

  /** Over every run, no two rows share a key or an id, every message sent describes a stored row, and
      the ring holds the last 64 events this server accepted. */
  lemma {:induction false} RunsAreSound(s: Server, steps: seq<Step>)
    requires Sound(s)
    ensures Sound(Run(s, steps))
    decreases |steps|
  {
    if steps != [] {
      StepKeepsSound(s, steps[0]);
      RunsAreSound(Do(s, steps[0]), steps[1..]);
    }
  }

  // ----- the snapshot chain -------------------------------------------------------------------------

  /** The rows of the file with the newest time are those that no row of the file is newer than. */
  lemma {:induction false} NewestRowsAreNewest(rows: seq<Row>, host: string, path: string, row: Row)
    ensures row in NewestRows(rows, host, path)
            <==> row in rows && row.host == host && row.path == path && NoneNewer(rows, host, path, row.time)
  {
    if rows != [] {
      var before, last := rows[..|rows| - 1], rows[|rows| - 1];
      var older := NewestRows(before, host, path);
      assert rows == before + [last];
      NewestRowsAreNewest(before, host, path, row);
      if older != [] {
        NewestRowsAreNewest(before, host, path, older[0]);
        assert older[0] in older;
      }
      EmptyIffNoRow(before, host, path);
    }
  }

  predicate NoneNewer(rows: seq<Row>, host: string, path: string, time: nat) {
    forall k :: 0 <= k < |rows| && rows[k].host == host && rows[k].path == path ==> rows[k].time <= time
  }

  lemma {:induction false} EmptyIffNoRow(rows: seq<Row>, host: string, path: string)
    ensures NewestRows(rows, host, path) == [] <==> forall k :: 0 <= k < |rows| ==> !OfFile(rows[k], host, path)
  {
    if rows != [] {
      EmptyIffNoRow(rows[..|rows| - 1], host, path);
    }
  }

  /** The time is past every event time of the file. */
  predicate PastFile(rows: seq<Row>, host: string, path: string, time: nat) {
    forall k :: 0 <= k < |rows| && OfFile(rows[k], host, path) ==> rows[k].time < time
  }

  /** When a row of a named file is stored, its time is past those of the file's rows, and the look-up of the
      previous row works. */
  predicate Orderly(s: Server, step: Step) {
    step.Post? && step.body.event.Some? && step.body.event.value.path != "" && Do(s, step).rows != s.rows ==>
      !step.c.lookupFails && PastFile(s.rows, step.body.event.value.host, step.body.event.value.path, step.c.now)
  }

  predicate OrderlyRun(s: Server, steps: seq<Step>)
    decreases |steps|
  {
    steps == [] || (Orderly(s, steps[0]) && OrderlyRun(Do(s, steps[0]), steps[1..]))
  }

  predicate Ascending(rows: seq<Row>) {
    rows == [] ||
    (var last, before := rows[|rows| - 1], rows[..|rows| - 1];
     Ascending(before) && (last.path != "" ==> PastFile(before, last.host, last.path, last.time)))
  }

  lemma {:induction false} NewestIsLast(rows: seq<Row>, host: string, path: string)
    requires Ascending(rows) && path != ""
    ensures
      var newest := NewestRows(rows, host, path);
      |newest| <= 1 && LastSnapshot(rows, host, path) == (if newest == [] then None else newest[0].current)
  {
    if rows != [] {
      var before := rows[..|rows| - 1];
      NewestIsLast(before, host, path);
      var older := NewestRows(before, host, path);
      if older != [] {
        var k :| 0 <= k < |before| && before[k] == older[0];
      }
    }
  }

  lemma RowKeepsChain(rows: seq<Row>, row: Row)
    requires Ascending(rows) && Linked(rows)
    requires row.path != "" ==>
               PastFile(rows, row.host, row.path, row.time) && row.previous == LastSnapshot(rows, row.host, row.path)
    ensures Ascending(rows + [row]) && Linked(rows + [row])
  {
    assert (rows + [row])[..|rows|] == rows && (rows + [row])[|rows|] == row;
  }

  lemma LookUpFindsLast(rows: seq<Row>, event: EventData, choice: nat)
    requires Ascending(rows) && event.path != ""
    ensures LookupPrevious(rows, event, false, choice) == LastSnapshot(rows, event.host, event.path)
  {
    NewestIsLast(rows, event.host, event.path);
    var newest := NewestRows(rows, event.host, event.path);
    if newest != [] {
      assert Pick(newest, choice) == newest[0];
    }
  }

  lemma StepKeepsChain(s: Server, step: Step)
    requires Ascending(s.rows) && Linked(s.rows) && Orderly(s, step)
    ensures Ascending(Do(s, step).rows) && Linked(Do(s, step).rows)
  {
    if step.Post? && step.body.event.Some? && Do(s, step).rows != s.rows {
      var event := step.body.event.value;
      if event.path != "" {
        LookUpFindsLast(s.rows, event, step.c.choice);
      }
      RowKeepsChain(s.rows, RowFor(s, event, step.c));
    }
  }

  /** With a clock that moves on between two rows of a file and working look-ups, the rows of every named file
      form a chain. */
  lemma {:induction false} RunsKeepChain(s: Server, steps: seq<Step>)
    requires Ascending(s.rows) && Linked(s.rows) && OrderlyRun(s, steps)
    ensures Linked(Run(s, steps).rows)
    decreases |steps|
  {
    if steps != [] {
      StepKeepsChain(s, steps[0]);
      RunsKeepChain(Do(s, steps[0]), steps[1..]);
    }
  }

  ghost predicate LinksForEveryChoice(rows: seq<Row>, event: EventData) {
    forall choice :: LookupPrevious(rows, event, false, choice) == LastSnapshot(rows, event.host, event.path)
  }

  predicate AllHave(rows: seq<Row>, snapshot: Option<SnapshotId>) {
    forall k :: 0 <= k < |rows| ==> rows[k].current == snapshot
  }

  lemma PickAt(rows: seq<Row>, k: nat)
    requires k < |rows|
    ensures Pick(rows, k) == rows[k]
  {
  }

  lemma PickHas(rows: seq<Row>, choice: nat, snapshot: Option<SnapshotId>)
    requires rows != [] && AllHave(rows, snapshot)
    ensures Pick(rows, choice).current == snapshot
  {
  }

  lemma EveryPickHas(rows: seq<Row>, snapshot: Option<SnapshotId>)
    requires rows != []
    ensures AllHave(rows, snapshot) <==> forall choice :: Pick(rows, choice).current == snapshot
  {
    if AllHave(rows, snapshot) {
      forall choice ensures Pick(rows, choice).current == snapshot {
        PickHas(rows, choice, snapshot);
      }
    }
    if forall choice :: Pick(rows, choice).current == snapshot {
      forall k | 0 <= k < |rows| ensures rows[k].current == snapshot {
        PickAt(rows, k);
      }
    }
  }

  /** Whatever order the database gives to equal times and whatever the clock did: the next row of a file is
      sure to start from the snapshot of the row before it if and only if all newest rows have that one. */
  lemma LinksForEveryChoiceIff(rows: seq<Row>, event: EventData)
    requires event.path != ""
    ensures LinksForEveryChoice(rows, event)
            <==> AllHave(NewestRows(rows, event.host, event.path), LastSnapshot(rows, event.host, event.path))
  {
    var newest, last := NewestRows(rows, event.host, event.path), LastSnapshot(rows, event.host, event.path);
    EmptyIffNoRow(rows, event.host, event.path);
    if newest == [] {
      NoRowNoSnapshot(rows, event.host, event.path);
    } else {
      EveryPickHas(newest, last);
      assert forall choice :: LookupPrevious(rows, event, false, choice) == Pick(newest, choice).current;
    }
  }

  /** A post that reaches the insert and works. */
  predicate Stores(s: Server, body: Body, c: Conditions) {
    && WellFormed(body) && !c.existsFails && !c.insertFails && !HasKey(s.rows, body.event.value.key)
    && !HasId(s.rows, RowFor(s, body.event.value, c).id)
  }

  lemma StoredRow(s: Server, body: Body, c: Conditions)
    requires Stores(s, body, c)
    ensures Do(s, Post(body, c)).rows == s.rows + [RowFor(s, body.event.value, c)]
  {
  }

  /** A row that is stored although the look-up of its previous row failed keeps the chain if and only if its
      file has no last snapshot yet. */
  lemma FailedLookUpKeepsChainIff(s: Server, body: Body, c: Conditions)
    requires Linked(s.rows) && Stores(s, body, c) && body.event.value.path != "" && c.lookupFails
    ensures Linked(Do(s, Post(body, c)).rows)
            <==> LastSnapshot(s.rows, body.event.value.host, body.event.value.path) == None
  {
    var row := RowFor(s, body.event.value, c);
    StoredRow(s, body, c);
    assert (s.rows + [row])[..|s.rows|] == s.rows && (s.rows + [row])[|s.rows|] == row;
  }

  /** An instance where the chain breaks: two events of one file at one time in an empty table, with two
      snapshots. The database may return either row, and with the first one the next row does not start from
      the second. */
  lemma EqualTimesBreakTheChain(s: Server, a: Body, c: Conditions, b: Body, d: Conditions, next: EventData)
    requires s.rows == [] && Stores(s, a, c) && Stores(Do(s, Post(a, c)), b, d)
    requires OfFile(RowFor(s, a.event.value, c), next.host, next.path) && next.path != ""
    requires b.event.value.host == next.host && b.event.value.path == next.path
    requires c.now == d.now && c.snapshot != d.snapshot
    ensures
      var rows := Run(s, [Post(a, c), Post(b, d)]).rows;
      && !LinksForEveryChoice(rows, next)
      && LookupPrevious(rows, next, false, 0) == c.snapshot && LastSnapshot(rows, next.host, next.path) == d.snapshot
  {
    var s' := Do(s, Post(a, c));
    var first, second := RowFor(s, a.event.value, c), RowFor(s', b.event.value, d);
    StoredRow(s, a, c);
    StoredRow(s', b, d);
    RunTwo(s, Post(a, c), Post(b, d));
    assert s.rows + [first] == [first] && [first] + [second] == [first, second];
    TwoNewest(first, second, next.host, next.path);
    assert Pick([first, second], 0) == first;
    assert LookupPrevious([first, second], next, false, 0) == first.current;
  }

  lemma RunTwo(s: Server, a: Step, b: Step)
    ensures Run(s, [a, b]) == Do(Do(s, a), b)
  {
    assert Run(Do(s, a), [b]) == Do(Do(s, a), b) by {
      assert [b][1..] == [];
    }
    assert [a, b][1..] == [b];
  }

  lemma TwoNewest(first: Row, second: Row, host: string, path: string)
    requires OfFile(first, host, path) && OfFile(second, host, path) && first.time == second.time
    ensures NewestRows([first, second], host, path) == [first, second]
    ensures LastSnapshot([first, second], host, path) == second.current
  {
    assert [first, second][..1] == [first] && [first][..0] == [];
    assert [first] + [second] == [first, second];
  }

  lemma {:induction false} NoRowNoSnapshot(rows: seq<Row>, host: string, path: string)
    requires forall k :: 0 <= k < |rows| ==> !OfFile(rows[k], host, path)
    ensures LastSnapshot(rows, host, path) == None
  {
    if rows != [] {
      NoRowNoSnapshot(rows[..|rows| - 1], host, path);
    }
  }

  predicate NoneBetween(rows: seq<Row>, i: nat, j: nat, host: string, path: string) {
    forall k :: i < k < j && k < |rows| ==> !OfFile(rows[k], host, path)
  }

  lemma {:induction false} LastSnapshotAt(rows: seq<Row>, i: nat, host: string, path: string)
    requires i < |rows| && OfFile(rows[i], host, path) && NoneBetween(rows, i, |rows|, host, path)
    ensures LastSnapshot(rows, host, path) == rows[i].current
  {
    if i < |rows| - 1 {
      LastSnapshotAt(rows[..|rows| - 1], i, host, path);
    }
  }

  lemma {:induction false} LinkedAt(rows: seq<Row>, j: nat)
    requires Linked(rows) && j < |rows| && rows[j].path != ""
    ensures rows[j].previous == LastSnapshot(rows[..j], rows[j].host, rows[j].path)
  {
    if j < |rows| - 1 {
      LinkedAt(rows[..|rows| - 1], j);
      assert rows[..|rows| - 1][..j] == rows[..j];
    }
  }

  /** Two successive rows of a file meet at the same snapshot. */
  lemma ChainLinksNeighbours(rows: seq<Row>, i: nat, j: nat)
    requires Linked(rows) && i < j < |rows| && rows[j].path != ""
    requires OfFile(rows[i], rows[j].host, rows[j].path) && NoneBetween(rows, i, j, rows[j].host, rows[j].path)
    ensures rows[j].previous == rows[i].current
  {
    LinkedAt(rows, j);
    LastSnapshotAt(rows[..j], i, rows[j].host, rows[j].path);
  }

  // ----- broadcasts ---------------------------------------------------------------------------------

  function Copies(sent: seq<Message>, id: EventId): nat {
    if sent == [] then 0 else Copies(sent[..|sent| - 1], id) + (if sent[|sent| - 1].id == id then 1 else 0)
  }

  lemma OneMore(sent: seq<Message>, m: Message, id: EventId)
    ensures Copies(sent + [m], id) == Copies(sent, id) + (if m.id == id then 1 else 0)
  {
    assert (sent + [m])[..|sent|] == sent;
  }

  /** A notification about this server's own k-th event is broadcast again if and only if at least 64
      events were accepted after it. */
  lemma NotificationSkippedIfRecent(s: Server, k: nat, environment: string)
    requires Sound(s) && k < |s.pushed|
    ensures
      Copies(Do(s, Notify(s.pushed[k], false, environment)).sent, s.pushed[k])
      == Copies(s.sent, s.pushed[k]) + (if |s.pushed| - k > 64 then 1 else 0)
  {
    var id := s.pushed[k];
    assert HasId(s.rows, id);
    OneMore(s.sent, MessageOf(RowWithId(s.rows, id), environment), id);
    if |s.pushed| - k <= RING_SIZE {
      assert Recent(s.pushed)[k - (|s.pushed| - |Recent(s.pushed)|)] == id;
    } else {
      forall j | 0 <= j < |s.ring| ensures s.ring[j] != id {
        assert s.ring[j] == s.pushed[|s.pushed| - RING_SIZE + j];
      }
    }
  }

  /** When the notification is handled after the broadcast but before the ring is updated, the event is
      broadcast twice: for every accepted call on every sound state. */
  lemma NotificationInBetweenSendsTwice(s: Server, event: EventData, c: Conditions)
    requires Sound(s) && !HasKey(s.rows, event.key) && Store(s, event, c).1.Accepted?
    ensures
      var row := RowFor(s, event, c);
      var midway := Broadcast(Insert(s, row), MessageOf(row, c.environment));
      && Store(s, event, c).0 == Push(midway, row.id)
      && Copies(Push(NotifyOnce(midway, row.id, false, c.environment), row.id).sent, row.id)
         == Copies(s.sent, row.id) + 2
  {
    var row := RowFor(s, event, c);
    var m := MessageOf(row, c.environment);
    InsertKeepsRows(s.rows, row, m);
    forall k | 0 <= k < |s.pushed| ensures s.pushed[k] != row.id {
      assert HasId(s.rows, s.pushed[k]);
    }
    OneMore(s.sent, m, row.id);
    OneMore(s.sent + [m], m, row.id);
  }

  // ----- what an answer tells the agent ---------------------------------------------------------------

  predicate Extends(a: seq<Row>, b: seq<Row>) {
    |a| <= |b| && b[..|a|] == a
  }

  lemma {:induction false} KeysStay(a: seq<Row>, b: seq<Row>, key: string)
    requires Extends(a, b) && HasKey(a, key)
    ensures HasKey(b, key)
    decreases |b|
  {
    if |a| < |b| {
      assert b[..|b| - 1][..|a|] == a;
      KeysStay(a, b[..|b| - 1], key);
    } else {
      assert a == b;
    }
  }

  /** Rows are only added. */
  lemma StepExtendsRows(s: Server, step: Step)
    ensures Extends(s.rows, Do(s, step).rows)
  {
  }

  predicate WellFormed(body: Body) {
    body.schemaVersion == SCHEMA_VERSION && body.event.Some? && body.event.value.key != ""
  }

  /** The agent sees a success if and only if the event's key is in the table after the call and everything
      between the table and the agent worked: the reply arrived, the check for a duplicate worked, and of a
      known key the row could be fetched, of a new one the host's row and the answer could be read. */
  lemma SuccessSeenIff(s: Server, body: Body, c: Conditions, replyLost: bool, parses: bool)
    requires body.event.Some?
    ensures
      var key := body.event.value.key;
      var (after, outcome) := IngestOnce(s, body, c);
      PublishSucceeds(outcome, replyLost, parses)
      <==> && HasKey(after.rows, key) && WellFormed(body) && !replyLost && !c.existsFails
           && (if HasKey(s.rows, key) then !c.fetchFails else !c.hostFails && parses)
  {
    var row := RowFor(s, body.event.value, c);
    InsertKeepsIds(s.rows, row, row.id);
  }
}
