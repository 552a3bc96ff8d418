/** What every run of the agent keeps: crashes at any step, lost replies, failed writes and restarts included. */
module DeliveryTheorems {
  import I = Ingest
  import IT = IngestTheorems
  import opened Spool
  import opened Delivery

  // ----- at-least-once delivery -----------------------------------------------------------------------

  predicate Stored(rows: seq<I.Row>, event: ChangeEvent) {
    I.HasKey(rows, KeyOf(event))
  }

  predicate Live(files: map<I.EventId, SpoolEntry>, event: ChangeEvent) {
    event.id in files && files[event.id].event == event
  }

  predicate Untried(files: map<I.EventId, SpoolEntry>, event: ChangeEvent) {
    Live(files, event) && files[event.id].attempts == 0
  }

  /** The event still waits, or the control plane has its key; it was tried at most once in its main loop. */
  predicate EntrySafe(rows: seq<I.Row>, entry: SpoolEntry) {
    entry.attempts <= 1 && (entry.status.Pending? || (entry.status.Delivered? && Stored(rows, entry.event)))
  }

  predicate FilesSafe(rows: seq<I.Row>, used: set<I.EventId>, files: map<I.EventId, SpoolEntry>) {
    forall id :: id in files ==> files[id].event.id == id && id in used && EntrySafe(rows, files[id])
  }

  predicate IndexSafe(rows: seq<I.Row>, spool: SpoolDisk) {
    forall id :: id in spool.index ==>
      && id in spool.files
      && (spool.index[id].Pending? || (spool.index[id].Delivered? && Stored(rows, spool.files[id].event)))
  }

  predicate Built(event: ChangeEvent, d: Decision) {
    event.transition.previous == PreviousOf(d) && event.transition.current == CurrentOf(d)
  }

  predicate QueueLive(files: map<I.EventId, SpoolEntry>, queue: seq<SpoolEntry>) {
    forall k :: 0 <= k < |queue| ==> Live(files, queue[k].event)
  }

  predicate NextSafe(files: map<I.EventId, SpoolEntry>, event: ChangeEvent, next: Next) {
    match next
    case Replayed(queue) => QueueLive(files, queue)
    case Handled(d) => Untried(files, event) && Built(event, d)
  }

  predicate PhaseSafe(s: System) {
    match s.phase
    case Down => true
    case Boot => true
    case Idle => true
    case Replay(queue) => QueueLive(s.spool.files, queue)
    case Spooling(event, d) => event.id in s.used && event.id !in s.spool.files && Built(event, d)
    case Indexing(event, d) =>
      Untried(s.spool.files, event) && Built(event, d) && s.spool.files[event.id].status.Pending?
    case Publishing(event, next) => Live(s.spool.files, event) && NextSafe(s.spool.files, event, next)
    case Confirming(event, next) =>
      Live(s.spool.files, event) && NextSafe(s.spool.files, event, next) && Stored(s.server.rows, event)
    case Recording(event, next) =>
      Live(s.spool.files, event) && NextSafe(s.spool.files, event, next) && Stored(s.server.rows, event)
    case Retrying(event, d) => Untried(s.spool.files, event) && Built(event, d)
    case Failing(_, _) => false
    case RecordingFailure(_, _) => false
    case Keeping(event, d) => Live(s.spool.files, event) && Built(event, d)
    case Setting(event, d) => Live(s.spool.files, event) && Built(event, d)
  }

  predicate Safe(s: System) {
    && FilesSafe(s.server.rows, s.used, s.spool.files) && IndexSafe(s.server.rows, s.spool) && PhaseSafe(s)
  }

  lemma ServerKeepsStored(s: I.Server, step: IT.Step, event: ChangeEvent)
    requires Stored(s.rows, event)
    ensures Stored(IT.Do(s, step).rows, event)
  {
    IT.StepExtendsRows(s, step);
    IT.KeysStay(s.rows, IT.Do(s, step).rows, KeyOf(event));
  }

  lemma ServerKeepsSafe(s: System, step: IT.Step)
    requires Safe(s)
    ensures Safe(s.(server := IT.Do(s.server, step)))
  {
    var rows := IT.Do(s.server, step).rows;
    forall id | id in s.spool.files && Stored(s.server.rows, s.spool.files[id].event)
      ensures Stored(rows, s.spool.files[id].event)
    {
      ServerKeepsStored(s.server, step, s.spool.files[id].event);
    }
    if s.phase.Confirming? || s.phase.Recording? {
      ServerKeepsStored(s.server, step, s.phase.event);
    }
  }

  lemma SpoolingKeepsSafe(s: System, ok: bool, now: int, readable: bool)
    requires Safe(s)
    ensures s.phase.Spooling? ==> Safe(SpoolEntryFile(s, s.phase.event, s.phase.decision, ok, now))
    ensures s.phase.Indexing? ==> Safe(SpoolIndexFile(s, s.phase.event, s.phase.decision, readable, ok))
  {
  }

  lemma PublishKeepsSafe(s: System, reached: bool, c: I.Conditions, replyLost: bool, parses: bool)
    requires Safe(s) && s.phase.Publishing?
    ensures Safe(Publish(s, s.phase.event, s.phase.next, reached, c, replyLost, parses))
  {
    var event := s.phase.event;
    if reached {
      ServerKeepsSafe(s, IT.Post(BodyOf(event), c));
      if I.PublishSucceeds(I.IngestOnce(s.server, BodyOf(event), c).1, replyLost, parses) {
        IT.SuccessSeenIff(s.server, BodyOf(event), c, replyLost, parses);
      }
    }
  }

  lemma ConfirmKeepsSafe(s: System, readable: bool, ok: bool)
    requires Safe(s) && s.phase.Confirming?
    ensures Safe(ConfirmIndex(s, s.phase.event, s.phase.next, readable, ok))
  {
  }

  lemma RecordKeepsSafe(s: System, ok: bool)
    requires Safe(s) && s.phase.Recording?
    ensures Safe(RecordStatus(s, s.phase.event, s.phase.next, ok))
  {
  }

  lemma CountKeepsSafe(s: System, ok: bool, now: int)
    requires Safe(s) && s.phase.Retrying?
    ensures Safe(CountTry(s, s.phase.event, s.phase.decision, ok, now))
    ensures !CountTry(s, s.phase.event, s.phase.decision, ok, now).phase.Failing?
  {
  }

  lemma QuietKeepsSafe(s: System, a: Action)
    requires Safe(s) && !a.WriteEntryFile? && !a.WriteIndexFile? && !a.WriteStatusFile?
    requires !a.Send? && !a.Count? && !a.Elsewhere?
    ensures Safe(Do(s, a))
  {
  }

  lemma StepKeepsSafe(s: System, a: Action)
    requires Safe(s)
    ensures Safe(Do(s, a))
  {
    match a {
      case WriteEntryFile(ok, now) => SpoolingKeepsSafe(s, ok, now, true);
      case WriteIndexFile(readable, ok) =>
        SpoolingKeepsSafe(s, ok, 0, readable);
        if s.phase.Confirming? {
          ConfirmKeepsSafe(s, readable, ok);
        }
      case WriteStatusFile(ok) =>
        if s.phase.Recording? {
          RecordKeepsSafe(s, ok);
        }
      case Send(reached, c, lost, parses) =>
        if s.phase.Publishing? {
          PublishKeepsSafe(s, reached, c, lost, parses);
        }
      case Count(ok, now) =>
        if s.phase.Retrying? {
          CountKeepsSafe(s, ok, now);
        }
      case Elsewhere(step) => ServerKeepsSafe(s, step);
      case _ => QuietKeepsSafe(s, a);
    }
  }

  /** In every state the agent can reach, every spooled event is still pending or its key is stored by
      the control plane; it was counted as tried at most once, so it never fails permanently; an id in
      the index has a file. */
  lemma {:induction false} RunsAreSafe(s: System, actions: seq<Action>)
    requires Safe(s)
    ensures Safe(Run(s, actions))
    decreases |actions|
  {
    if actions != [] {
      StepKeepsSafe(s, actions[0]);
      RunsAreSafe(Do(s, actions[0]), actions[1..]);
    }
  }

  /** The same, from a first start and for one event. */
  lemma SpooledEventsAreNeverLost(s: System, actions: seq<Action>, id: I.EventId)
    requires Fresh(s) && id in Run(s, actions).spool.files
    ensures
      var s' := Run(s, actions);
      var entry := s'.spool.files[id];
      && entry.attempts <= 1 && !entry.status.FailedPermanently?
      && (entry.status.Pending? || I.HasKey(s'.server.rows, KeyOf(entry.event)))
  {
    RunsAreSafe(s, actions);
  }
}
