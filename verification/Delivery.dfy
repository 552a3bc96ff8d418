/** The agent as a step system: the start-up replay and the main loop of crates/config-agent/src/app.rs over
    the decisions of crates/config-agent/src/pipeline.rs. Every single write is a step, a crash can happen
    between any two steps, and the control plane can store an event although the agent sees an error. */
module Delivery {
  import opened Options
  import opened IdempotencyKeys
  import I = Ingest
  import IT = IngestTheorems
  import opened Spool
  import opened Snapshots

  const MAX_FILE_BYTES: nat := 5 * 1024 * 1024
  const MAX_PUBLISH_RETRIES: nat := 5

  // ----- the decision of the pipeline ---------------------------------------------------------------

  /** A file as the pipeline finds it, with the hash of its bytes. */
  datatype FileState = Missing | Unreadable | Content(data: Bytes, hash: string)

  /** A debounced event: the file, what happened, and the minute of its observation. */
  datatype FileEvent = FileEvent(path: string, kind: ChangeKind, minute: string)

  datatype Decision =
    | Unchanged
    | Changed(previous: string, current: string, previousData: Bytes, data: Bytes)
    | FileCreated(current: string, data: Bytes)
    | FileDeleted(previous: string, previousData: Bytes)

  /** An error of `snapshot_acquire` ends the agent. */
  datatype Acquired = Exit | Decided(decision: Decision)

  function StoredHash(store: Store, path: string): string {
    if path in store.current then store.current[path] else ""
  }

  function SnapshotAcquire(store: Store, event: FileEvent, file: FileState, readable: bool): Acquired {
    var previous := StoredHash(store, event.path);
    var previousData := ReadContent(store, previous, readable);
    if event.kind.Deleted? then
      if previous == "" then Decided(Unchanged)
      else Decided(FileDeleted(previous, if previousData.Some? then previousData.value else []))
    else
      match file
      case Missing => Decided(Unchanged)
      case Unreadable => Exit
      case Content(data, hash) =>
        if |data| > MAX_FILE_BYTES then Exit
        else if previous == hash then Decided(Unchanged)
        else if previous == "" || previousData.None? then Decided(FileCreated(hash, data))
        else Decided(Changed(previous, hash, previousData.value, data))
  }

  function PreviousOf(d: Decision): string {
    if d.Changed? || d.FileDeleted? then d.previous else ""
  }

  function CurrentOf(d: Decision): string {
    if d.Changed? || d.FileCreated? then d.current else ""
  }

  function BuildEvent(id: I.EventId, host: string, event: FileEvent, d: Decision): ChangeEvent {
    ChangeEvent(id, event.kind, Transition(host, event.path, PreviousOf(d), CurrentOf(d), event.minute))
  }

  function KeyOf(event: ChangeEvent): string {
    DeriveKey(event.transition)
  }

  function BodyOf(event: ChangeEvent): I.Body {
    I.Body(I.SCHEMA_VERSION,
           Some(I.EventData(Some(event.id), KeyOf(event), event.transition.host, event.transition.path,
                            KindName(event.kind))))
  }

  function KindName(kind: ChangeKind): string {
    match kind
    case Created => "created"
    case Modified => "modified"
    case Deleted => "deleted"
    case MetadataOnly => "metadata_only"
    case PermissionChanged => "permission_changed"
    case InitialSnapshot => "initial_snapshot"
  }

  // ----- states -------------------------------------------------------------------------------------

  /** What follows the delivery of an event: the rest of the replay, or the new hash of its file. */
  datatype Next = Replayed(queue: seq<SpoolEntry>) | Handled(decision: Decision)

  datatype Phase =
    | Down
    | Boot
    | Replay(queue: seq<SpoolEntry>)
    | Idle
    | Spooling(event: ChangeEvent, decision: Decision)
    | Indexing(event: ChangeEvent, decision: Decision)
    | Publishing(event: ChangeEvent, next: Next)
    | Confirming(event: ChangeEvent, next: Next)
    | Recording(event: ChangeEvent, next: Next)
    | Retrying(event: ChangeEvent, decision: Decision)
    | Failing(event: ChangeEvent, decision: Decision)
    | RecordingFailure(event: ChangeEvent, decision: Decision)
    | Keeping(event: ChangeEvent, decision: Decision)
    | Setting(event: ChangeEvent, decision: Decision)

  /** The agent, its disk and the control plane. The last six fields only record the past: the event ids
      used, the baselines taken, the hashes and the spool files when the main loop started, the events whose
      spool file was written since, and those of them whose index entry could then not be written. */
  datatype System = System(host: string, phase: Phase, store: Store, spool: SpoolDisk, server: I.Server,
                           used: set<I.EventId>, baselines: set<(string, string)>,
                           origin: map<string, string>, earlier: set<I.EventId>,
                           events: seq<ChangeEvent>, halved: seq<ChangeEvent>)

  datatype Action =
    | Crash
    | Start
    | Baseline(path: string, data: Bytes, hash: string, written: bool, noted: bool, saved: bool)
    | List(queue: seq<SpoolEntry>)
    | NextEntry
    | Take(file: FileEvent, state: FileState, readable: bool, id: I.EventId)
    | WriteEntryFile(ok: bool, now: int)
    | WriteIndexFile(readable: bool, ok: bool)
    | WriteStatusFile(ok: bool)
    | Send(reached: bool, c: I.Conditions, replyLost: bool, parses: bool)
    | Count(ok: bool, now: int)
    | KeepContent(written: bool, noted: bool)
    | SetCurrent(saves: bool)
    | Evict(hashes: set<string>)
    | Elsewhere(step: IT.Step)

  /** A step of the delivery of an event, from its index entry on. */
  predicate Delivering(a: Action) {
    a.Send? || a.WriteIndexFile? || a.WriteStatusFile? || a.Count?
  }

  // ----- steps --------------------------------------------------------------------------------------

  function Resume(s: System, event: ChangeEvent, next: Next): System {
    match next
    case Replayed(queue) => s.(phase := Replay(queue))
    case Handled(decision) => s.(phase := if CurrentOf(decision) == "" then Idle else Keeping(event, decision))
  }

  /** Baselines are skipped for a file whose hash and content are there. */
  function TakeBaseline(s: System, path: string, data: Bytes, hash: string, written: bool, noted: bool,
                        saved: bool): System {
    var known := path in s.store.current && ContentExists(s.store, s.store.current[path]);
    if known || |data| > MAX_FILE_BYTES || hash == "" then s
    else if !(written && noted) then s.(store := Write(s.store, hash, data, written, noted).0)
    else
      s.(store := SetHash(Write(s.store, hash, data, true, true).0, path, hash, saved).0,
         baselines := s.baselines + {(path, hash)})
  }

  predicate PendingQueue(spool: SpoolDisk, queue: seq<SpoolEntry>) {
    forall k :: 0 <= k < |queue| ==>
      queue[k].event.id in spool.files && spool.files[queue[k].event.id] == queue[k] && queue[k].status.Pending?
  }

  function TakeNext(s: System, queue: seq<SpoolEntry>): System {
    if queue == [] then
      s.(phase := Idle, origin := s.store.current, earlier := s.spool.files.Keys, events := [], halved := [])
    else s.(phase := Publishing(queue[0].event, Replayed(queue[1..])))
  }

  function TakeEvent(s: System, file: FileEvent, state: FileState, readable: bool, id: I.EventId): System {
    match SnapshotAcquire(s.store, file, state, readable)
    case Exit => s.(phase := Down)
    case Decided(decision) =>
      if decision.Unchanged? || id in s.used || (state.Content? && state.hash == "") then s
      else s.(phase := Spooling(BuildEvent(id, s.host, file, decision), decision), used := s.used + {id})
  }

  function SpoolEntryFile(s: System, event: ChangeEvent, decision: Decision, ok: bool, now: int): System {
    if !ok then s.(phase := Idle)
    else
      s.(phase := Indexing(event, decision), spool := WriteEntry(s.spool, event, now), events := s.events + [event])
  }

  function SpoolIndexFile(s: System, event: ChangeEvent, decision: Decision, readable: bool, ok: bool): System {
    if !ok then s.(phase := Idle, halved := s.halved + [event])
    else s.(phase := Publishing(event, Handled(decision)), spool := WriteIndex(s.spool, event.id, Pending, readable))
  }

  function Publish(s: System, event: ChangeEvent, next: Next, reached: bool, c: I.Conditions, replyLost: bool,
                   parses: bool): System {
    if reached && I.PublishSucceeds(I.IngestOnce(s.server, BodyOf(event), c).1, replyLost, parses) then
      s.(server := I.IngestOnce(s.server, BodyOf(event), c).0, phase := Confirming(event, next))
    else
      var s' := if reached then s.(server := I.IngestOnce(s.server, BodyOf(event), c).0) else s;
      match next
      case Replayed(queue) => s'.(phase := Replay(queue))
      case Handled(decision) => s'.(phase := Retrying(event, decision))
  }

  function ConfirmIndex(s: System, event: ChangeEvent, next: Next, readable: bool, ok: bool): System {
    if !ok then Resume(s, event, next)
    else s.(phase := Recording(event, next), spool := WriteIndex(s.spool, event.id, Delivered, readable))
  }

  function RecordStatus(s: System, event: ChangeEvent, next: Next, ok: bool): System {
    Resume(if ok then s.(spool := WriteStatus(s.spool, event.id, Delivered)) else s, event, next)
  }

  function CountTry(s: System, event: ChangeEvent, decision: Decision, ok: bool, now: int): System {
    if event.id !in s.spool.files then Resume(s, event, Handled(decision))
    else if !ok then s.(phase := Down)
    else
      var s' := s.(spool := CountAttempt(s.spool, event.id, now));
      if s'.spool.files[event.id].attempts >= MAX_PUBLISH_RETRIES then s'.(phase := Failing(event, decision))
      else Resume(s', event, Handled(decision))
  }

  const FAILURE: DeliveryStatus := FailedPermanently("max retries exceeded")

  function FailIndex(s: System, event: ChangeEvent, decision: Decision, readable: bool, ok: bool): System {
    if !ok then Resume(s, event, Handled(decision))
    else s.(phase := RecordingFailure(event, decision), spool := WriteIndex(s.spool, event.id, FAILURE, readable))
  }

  function RecordFailure(s: System, event: ChangeEvent, decision: Decision, ok: bool): System {
    Resume(if ok then s.(spool := WriteStatus(s.spool, event.id, FAILURE)) else s, event, Handled(decision))
  }

  function KeepData(s: System, event: ChangeEvent, decision: Decision, written: bool, noted: bool): System {
    if !decision.Changed? && !decision.FileCreated? then s
    else s.(phase := Setting(event, decision),
            store := Write(s.store, CurrentOf(decision), decision.data, written, noted).0)
  }

  function SetFileHash(s: System, event: ChangeEvent, decision: Decision, saves: bool): System {
    s.(phase := Idle, store := SetHash(s.store, event.transition.path, CurrentOf(decision), saves).0)
  }

  function WriteIndexIn(s: System, readable: bool, ok: bool): System {
    match s.phase
    case Indexing(event, d) => SpoolIndexFile(s, event, d, readable, ok)
    case Confirming(event, next) => ConfirmIndex(s, event, next, readable, ok)
    case Failing(event, d) => FailIndex(s, event, d, readable, ok)
    case _ => s
  }

  function WriteStatusIn(s: System, ok: bool): System {
    match s.phase
    case Recording(event, next) => RecordStatus(s, event, next, ok)
    case RecordingFailure(event, d) => RecordFailure(s, event, d, ok)
    case _ => s
  }

  /** One step. An action that the phase does not allow changes nothing. */
  function Do(s: System, a: Action): System {
    match a
    case Crash => s.(phase := Down)
    case Start => if s.phase.Down? then s.(phase := Boot, store := Load(s.store)) else s
    case Baseline(path, data, hash, written, noted, saved) =>
      if s.phase.Boot? then TakeBaseline(s, path, data, hash, written, noted, saved) else s
    case List(queue) => if s.phase.Boot? && PendingQueue(s.spool, queue) then s.(phase := Replay(queue)) else s
    case NextEntry => if s.phase.Replay? then TakeNext(s, s.phase.queue) else s
    case Take(file, state, readable, id) => if s.phase.Idle? then TakeEvent(s, file, state, readable, id) else s
    case WriteEntryFile(ok, now) =>
      if s.phase.Spooling? then SpoolEntryFile(s, s.phase.event, s.phase.decision, ok, now) else s
    case WriteIndexFile(readable, ok) => WriteIndexIn(s, readable, ok)
    case WriteStatusFile(ok) => WriteStatusIn(s, ok)
    case Send(reached, c, lost, parses) =>
      if s.phase.Publishing? then Publish(s, s.phase.event, s.phase.next, reached, c, lost, parses) else s
    case Count(ok, now) => if s.phase.Retrying? then CountTry(s, s.phase.event, s.phase.decision, ok, now) else s
    case KeepContent(written, noted) =>
      if s.phase.Keeping? then KeepData(s, s.phase.event, s.phase.decision, written, noted) else s
    case SetCurrent(saves) => if s.phase.Setting? then SetFileHash(s, s.phase.event, s.phase.decision, saves) else s
    case Evict(hashes) => s.(store := s.store.(contents := s.store.contents - hashes))
    case Elsewhere(step) => s.(server := IT.Do(s.server, step))
  }

  function Run(s: System, actions: seq<Action>): System
    decreases |actions|
  {
    if actions == [] then s else Run(Do(s, actions[0]), actions[1..])
  }

  lemma {:induction false} RunAppend(s: System, a: seq<Action>, b: seq<Action>)
    ensures Run(s, a + b) == Run(Run(s, a), b)
    decreases |a|
  {
    if a == [] {
      assert a + b == b;
    } else {
      assert (a + b)[0] == a[0] && (a + b)[1..] == a[1..] + b;
      RunAppend(Do(s, a[0]), a[1..], b);
    }
  }

  lemma RunOne(s: System, a: Action)
    ensures Run(s, [a]) == Do(s, a)
  {
    assert [a][1..] == [];
  }

  lemma RunTwo(s: System, a: Action, b: Action)
    ensures Run(s, [a, b]) == Do(Do(s, a), b)
  {
    assert [a, b] == [a] + [b];
    RunAppend(s, [a], [b]);
    RunOne(s, a);
    RunOne(Do(s, a), b);
  }

  lemma RunThree(s: System, a: Action, b: Action, c: Action)
    ensures Run(s, [a, b, c]) == Do(Do(Do(s, a), b), c)
  {
    assert [a, b, c] == [a, b] + [c];
    RunAppend(s, [a, b], [c]);
    RunTwo(s, a, b);
    RunOne(Do(Do(s, a), b), c);
  }

  /** A first start: an empty disk, whatever the control plane holds. */
  predicate Fresh(s: System) {
    && s.phase.Down? && s.store == Store(map[], map[], map[]) && s.spool == SpoolDisk(map[], map[])
    && s.used == {} && s.baselines == {} && s.earlier == {} && s.events == [] && s.halved == []
  }
}
