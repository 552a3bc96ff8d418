/** The control plane's side of a delivery: `ingest_change` of crates/config-control-plane/src/ingest.rs,
    the notification listener of crates/config-control-plane/src/pg_notify.rs, the HTTP answer of
    crates/config-control-plane/src/http/routes.rs, and how `publish_change` of
    crates/config-transport/src/client.rs reads that answer. */
module Ingest {
  import opened Options

  type EventId = nat
  type SnapshotId = nat

  const SCHEMA_VERSION: string := "1.0"
  const RING_SIZE: nat := 64

  /** The fields of a posted event. A missing key or path is the empty string. */
  datatype EventData = EventData(id: Option<EventId>, key: string, host: string, path: string, kind: string)

  datatype Body = Body(schemaVersion: string, event: Option<EventData>)

  datatype Row = Row(id: EventId, key: string, host: string, path: string, kind: string, time: nat,
                     previous: Option<SnapshotId>, current: Option<SnapshotId>)

  datatype Message = Message(id: EventId, host: string, environment: string, path: string, kind: string, time: nat)

  /** The table of change events, the ring of recent local events, the messages broadcast on this
      server, and the ids of all events it ever pushed to the ring. */
  datatype Server = Server(rows: seq<Row>, ring: seq<EventId>, sent: seq<Message>, pushed: seq<EventId>)

  /** What the database, the clock and the snapshot store do during one call. `choice` is the row that the
      look-up of the previous row takes among equally new ones. `snapshot` is the stored content of the
      event, if it came with any and storing it worked. */
  datatype Conditions = Conditions(existsFails: bool, fetchFails: bool, lookupFails: bool, choice: nat,
                                   insertFails: bool, hostFails: bool, now: nat, newId: EventId,
                                   snapshot: Option<SnapshotId>, environment: string)

  datatype Outcome = Accepted(id: EventId) | Duplicate(id: EventId) | Rejected(reason: string) | Failed

  // ----- queries ------------------------------------------------------------------------------------

  predicate HasKey(rows: seq<Row>, key: string) {
    rows != [] && (rows[|rows| - 1].key == key || HasKey(rows[..|rows| - 1], key))
  }

  predicate HasId(rows: seq<Row>, id: EventId) {
    rows != [] && (rows[|rows| - 1].id == id || HasId(rows[..|rows| - 1], id))
  }

  function RowWithKey(rows: seq<Row>, key: string): (row: Row)
    requires HasKey(rows, key)
    ensures row in rows && row.key == key
  {
    if rows[|rows| - 1].key == key then rows[|rows| - 1] else RowWithKey(rows[..|rows| - 1], key)
  }

  function RowWithId(rows: seq<Row>, id: EventId): (row: Row)
    requires HasId(rows, id)
    ensures row in rows && row.id == id
  {
    if rows[|rows| - 1].id == id then rows[|rows| - 1] else RowWithId(rows[..|rows| - 1], id)
  }

  predicate OfFile(row: Row, host: string, path: string) {
    row.host == host && row.path == path
  }

  /** The rows of a file with the newest event time. */
  function NewestRows(rows: seq<Row>, host: string, path: string): (newest: seq<Row>)
    ensures forall k :: 0 <= k < |newest| ==> newest[k] in rows && OfFile(newest[k], host, path)
  {
    if rows == [] then []
    else
      var older := NewestRows(rows[..|rows| - 1], host, path);
      var last := rows[|rows| - 1];
      if !OfFile(last, host, path) || (older != [] && last.time < older[0].time) then older
      else if older != [] && last.time == older[0].time then older + [last]
      else [last]
  }

  function Pick(rows: seq<Row>, choice: nat): Row
    requires rows != []
  {
    rows[choice % |rows|]
  }

  /** The snapshot of the newest row of the file. The query takes one row in descending order of time, so of
      several newest rows it returns any one: `choice` says which. */
  function LookupPrevious(rows: seq<Row>, event: EventData, fails: bool, choice: nat): Option<SnapshotId> {
    if event.path == "" || fails then None
    else
      var newest := NewestRows(rows, event.host, event.path);
      if newest == [] then None else Pick(newest, choice).current
  }

  // ----- one call of ingest_change --------------------------------------------------------------------

  function MessageOf(row: Row, environment: string): Message {
    Message(row.id, row.host, environment, row.path, row.kind, row.time)
  }

  function RowFor(s: Server, event: EventData, c: Conditions): Row {
    Row(if event.id.Some? then event.id.value else c.newId, event.key, event.host, event.path, event.kind, c.now,
        LookupPrevious(s.rows, event, c.lookupFails, c.choice), c.snapshot)
  }

  function PushRing(ring: seq<EventId>, id: EventId): seq<EventId> {
    (if |ring| >= RING_SIZE then ring[1..] else ring) + [id]
  }

  function Insert(s: Server, row: Row): Server {
    s.(rows := s.rows + [row])
  }

  function Broadcast(s: Server, message: Message): Server {
    s.(sent := s.sent + [message])
  }

  function Push(s: Server, id: EventId): Server {
    s.(ring := PushRing(s.ring, id), pushed := s.pushed + [id])
  }

  function Store(s: Server, event: EventData, c: Conditions): (Server, Outcome) {
    var row := RowFor(s, event, c);
    if c.insertFails || HasKey(s.rows, row.key) || HasId(s.rows, row.id) then (s, Failed)
    else if c.hostFails then (Insert(s, row), Failed)
    else (Push(Broadcast(Insert(s, row), MessageOf(row, c.environment)), row.id), Accepted(row.id))
  }

  function IngestOnce(s: Server, body: Body, c: Conditions): (Server, Outcome) {
    if body.schemaVersion != SCHEMA_VERSION then (s, Rejected("unsupported schema version: " + body.schemaVersion))
    else if body.event.None? then (s, Rejected("missing event"))
    else if body.event.value.key == "" then (s, Rejected("missing idempotency_key"))
    else if c.existsFails then (s, Failed)
    else if HasKey(s.rows, body.event.value.key) then
      (s, if c.fetchFails then Failed else Duplicate(RowWithKey(s.rows, body.event.value.key).id))
    else Store(s, body.event.value, c)
  }

  /** The listener's answer to a notification that names event `id`. */
  function NotifyOnce(s: Server, id: EventId, fetchFails: bool, environment: string): Server {
    if id in s.ring || fetchFails || !HasId(s.rows, id) then s
    else Broadcast(s, MessageOf(RowWithId(s.rows, id), environment))
  }

  class IngestService {
    var rows: seq<Row>
    var ring: seq<EventId>
    var sent: seq<Message>
    ghost var pushed: seq<EventId>

    ghost function State(): Server
      reads this
    {
      Server(rows, ring, sent, pushed)
    }

    constructor ()
      ensures State() == Server([], [], [], [])
    {
      rows, ring, sent, pushed := [], [], [], [];
    }

    method IngestChange(body: Body, c: Conditions) returns (outcome: Outcome)
      modifies this
      ensures (State(), outcome) == IngestOnce(old(State()), body, c)
    {
      if body.schemaVersion != SCHEMA_VERSION {
        return Rejected("unsupported schema version: " + body.schemaVersion);
      }
      if body.event.None? {
        return Rejected("missing event");
      }
      var event := body.event.value;
      if event.key == "" {
        return Rejected("missing idempotency_key");
      }
      if c.existsFails {
        return Failed;
      }
      if HasKey(rows, event.key) {
        return if c.fetchFails then Failed else Duplicate(RowWithKey(rows, event.key).id);
      }
      outcome := StoreEvent(event, c);
    }

    method StoreEvent(event: EventData, c: Conditions) returns (outcome: Outcome)
      modifies this
      ensures (State(), outcome) == Store(old(State()), event, c)
    {
      var id := if event.id.Some? then event.id.value else c.newId;
      var previous := LookupPrevious(rows, event, c.lookupFails, c.choice);
      var row := Row(id, event.key, event.host, event.path, event.kind, c.now, previous, c.snapshot);
      if c.insertFails || HasKey(rows, row.key) || HasId(rows, row.id) {
        return Failed;
      }
      rows := rows + [row];
      if c.hostFails {
        return Failed;
      }
      sent := sent + [MessageOf(row, c.environment)];
      if |ring| >= RING_SIZE {
        ring := ring[1..];
      }
      ring := ring + [row.id];
      pushed := pushed + [row.id];
      outcome := Accepted(row.id);
    }

    method HandleNotification(id: EventId, fetchFails: bool, environment: string)
      modifies this
      ensures State() == NotifyOnce(old(State()), id, fetchFails, environment)
    {
      if id in ring {
        return;
      }
      if !fetchFails && HasId(rows, id) {
        sent := sent + [MessageOf(RowWithId(rows, id), environment)];
      }
    }
  }

  // ----- the answer and how the agent reads it -------------------------------------------------------

  function StatusOf(outcome: Outcome): nat {
    match outcome
    case Accepted(_) => 201
    case Duplicate(_) => 409
    case Rejected(_) => 400
    case Failed => 500
  }

  /** `publish_change` succeeds on a conflict, and on a success status whose body can be read. */
  predicate ClientAccepts(status: nat, parses: bool) {
    status == 409 || (200 <= status < 300 && parses)
  }

  /** What the agent sees of a call: nothing if the reply is lost. */
  predicate PublishSucceeds(outcome: Outcome, replyLost: bool, parses: bool) {
    !replyLost && ClientAccepts(StatusOf(outcome), parses)
  }
}
