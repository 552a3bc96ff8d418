/** The agent's own code: the baseline scan of crates/config-agent/src/pipeline.rs, and the replay loop and
    the handling of one event in crates/config-agent/src/app.rs. Each method does exactly the steps of the
    step system that its inputs say. */
module Agent {
  import opened Options
  import I = Ingest
  import opened Spool
  import opened Snapshots
  import opened Delivery
  import opened DeliveryTheorems

  /** What the control plane and the network do to one publish. */
  datatype Call = Call(reached: bool, c: I.Conditions, replyLost: bool, parses: bool)

  /** What the world does while one event is handled. */
  datatype World = World(state: FileState, readable: bool, id: I.EventId, now: int, appending: SpoolIo, call: Call,
                         marking: SpoolIo, counting: SpoolIo, failing: SpoolIo, written: bool, noted: bool, saves: bool)

  /** One file of the scan: whether it passes the path filters, its content, and how the writes go. */
  datatype Found = Found(path: string, tracked: bool, state: FileState, written: bool, noted: bool, saves: bool)

  datatype BaselineStats = BaselineStats(filesScanned: nat, baselinesCreated: nat, skippedExisting: nat)

  // ----- the steps of one event, in order ------------------------------------------------------------

  function IndexStep(io: SpoolIo): Action {
    WriteIndexFile(io.indexReadable, io.indexWritten)
  }

  function StatusStep(io: SpoolIo): Action {
    WriteStatusFile(FileRewritten(io))
  }

  function SpoolSteps(now: int, io: SpoolIo): seq<Action> {
    [WriteEntryFile(io.dirReadable && io.fileWritten, now), IndexStep(io)]
  }

  function PublishSteps(call: Call, io: SpoolIo): seq<Action> {
    [Send(call.reached, call.c, call.replyLost, call.parses), IndexStep(io), StatusStep(io)]
  }

  function RetrySteps(now: int, io: SpoolIo, failing: SpoolIo): seq<Action> {
    [Count(FileRewritten(io), now), IndexStep(failing), StatusStep(failing)]
  }

  function HashSteps(written: bool, noted: bool, saves: bool): seq<Action> {
    [KeepContent(written, noted), SetCurrent(saves)]
  }

  /** The steps of one event. Those that do not apply change nothing. */
  function EventSteps(file: FileEvent, w: World): seq<Action> {
    [Take(file, w.state, w.readable, w.id)] + SpoolSteps(w.now, w.appending) + PublishSteps(w.call, w.marking)
    + RetrySteps(w.now, w.counting, w.failing) + HashSteps(w.written, w.noted, w.saves)
  }

  function ReplaySteps(calls: seq<Call>, marks: seq<SpoolIo>): seq<Action>
    requires |calls| == |marks|
  {
    if calls == [] then []
    else
      var n := |calls| - 1;
      ReplaySteps(calls[..n], marks[..n]) + ([NextEntry] + PublishSteps(calls[n], marks[n]))
  }

  function ScanStep(f: Found): seq<Action> {
    if !f.tracked || !f.state.Content? then []
    else [Baseline(f.path, f.state.data, f.state.hash, f.written, f.noted, f.saves)]
  }

  function ScanSteps(found: seq<Found>): seq<Action> {
    if found == [] then [] else ScanSteps(found[..|found| - 1]) + ScanStep(found[|found| - 1])
  }

  predicate IsSkipped(s: System, f: Found) {
    f.tracked && f.path in s.store.current && ContentExists(s.store, s.store.current[f.path])
  }

  predicate IsCreated(s: System, f: Found) {
    && f.tracked && !IsSkipped(s, f) && f.state.Content? && |f.state.data| <= MAX_FILE_BYTES
    && f.written && f.noted && f.saves
  }

  /** How many files of a scan from `s` get a baseline, each seen in the state the files before it left. */
  function CreatedIn(s: System, found: seq<Found>): nat {
    if found == [] then 0
    else
      var n := |found| - 1;
      CreatedIn(s, found[..n]) + (if IsCreated(Run(s, ScanSteps(found[..n])), found[n]) then 1 else 0)
  }

  function SkippedIn(s: System, found: seq<Found>): nat {
    if found == [] then 0
    else
      var n := |found| - 1;
      SkippedIn(s, found[..n]) + (if IsSkipped(Run(s, ScanSteps(found[..n])), found[n]) then 1 else 0)
  }

  lemma QuietSpool(s: System, now: int, io: SpoolIo)
    requires s.phase.Idle? || s.phase.Down?
    ensures Run(s, SpoolSteps(now, io)) == s
  {
    RunTwo(s, SpoolSteps(now, io)[0], IndexStep(io));
  }

  lemma QuietPublish(s: System, call: Call, io: SpoolIo)
    requires s.phase.Idle? || s.phase.Down?
    ensures Run(s, PublishSteps(call, io)) == s
  {
    RunThree(s, PublishSteps(call, io)[0], IndexStep(io), StatusStep(io));
  }

  lemma QuietRetry(s: System, now: int, io: SpoolIo, failing: SpoolIo)
    requires s.phase.Idle? || s.phase.Down? || s.phase.Keeping?
    ensures Run(s, RetrySteps(now, io, failing)) == s
  {
    RunThree(s, RetrySteps(now, io, failing)[0], IndexStep(failing), StatusStep(failing));
  }

  lemma QuietHash(s: System, written: bool, noted: bool, saves: bool)
    requires s.phase.Idle? || s.phase.Down?
    ensures Run(s, HashSteps(written, noted, saves)) == s
  {
    RunTwo(s, KeepContent(written, noted), SetCurrent(saves));
  }

  /** The steps after the event is in the spool. */
  function AfterDelivery(s: System, w: World): System {
    Run(Run(Run(s, PublishSteps(w.call, w.marking)), RetrySteps(w.now, w.counting, w.failing)),
        HashSteps(w.written, w.noted, w.saves))
  }

  lemma QuietDelivery(s: System, w: World)
    requires s.phase.Idle? || s.phase.Down?
    ensures AfterDelivery(s, w) == s
  {
    QuietPublish(s, w.call, w.marking);
    QuietRetry(s, w.now, w.counting, w.failing);
    QuietHash(s, w.written, w.noted, w.saves);
  }

  lemma SplitSteps(s: System, file: FileEvent, w: World)
    ensures Run(s, EventSteps(file, w))
         == AfterDelivery(Run(Do(s, Take(file, w.state, w.readable, w.id)), SpoolSteps(w.now, w.appending)), w)
  {
    var a, b := [Take(file, w.state, w.readable, w.id)], SpoolSteps(w.now, w.appending);
    var c, d := PublishSteps(w.call, w.marking), RetrySteps(w.now, w.counting, w.failing);
    RunAppend(s, a + b + c + d, HashSteps(w.written, w.noted, w.saves));
    RunAppend(s, a + b + c, d);
    RunAppend(s, a + b, c);
    RunAppend(s, a, b);
    RunOne(s, a[0]);
  }

  lemma ScanOneMore(s: System, found: seq<Found>, f: Found)
    ensures Run(s, ScanSteps(found + [f])) == Run(Run(s, ScanSteps(found)), ScanStep(f))
    ensures CreatedIn(s, found + [f]) == CreatedIn(s, found) + (if IsCreated(Run(s, ScanSteps(found)), f) then 1 else 0)
    ensures SkippedIn(s, found + [f]) == SkippedIn(s, found) + (if IsSkipped(Run(s, ScanSteps(found)), f) then 1 else 0)
  {
    assert (found + [f])[..|found|] == found;
    RunAppend(s, ScanSteps(found), ScanStep(f));
  }

  lemma ReplayOneMore(s: System, calls: seq<Call>, marks: seq<SpoolIo>, call: Call, io: SpoolIo)
    requires |calls| == |marks|
    ensures Run(s, ReplaySteps(calls + [call], marks + [io]))
         == Run(Run(s, ReplaySteps(calls, marks)), [NextEntry] + PublishSteps(call, io))
  {
    assert (calls + [call])[..|calls|] == calls && (marks + [io])[..|marks|] == marks;
    RunAppend(s, ReplaySteps(calls, marks), [NextEntry] + PublishSteps(call, io));
  }

  class Agent {
    const host: string
    const spool: SpoolWriter
    const store: SnapshotStore
    const server: I.IngestService
    ghost var phase: Phase
    ghost var used: set<I.EventId>
    ghost var baselines: set<(string, string)>
    ghost var origin: map<string, string>
    ghost var earlier: set<I.EventId>
    ghost var events: seq<ChangeEvent>
    ghost var halved: seq<ChangeEvent>

    ghost function View(): System
      reads this, spool, store, server
    {
      System(host, phase, store.Value(), spool.Disk(), server.State(), used, baselines, origin, earlier, events,
             halved)
    }

    /** Opens the disk left by an earlier run. */
    constructor (s: System, spool: SpoolWriter, server: I.IngestService)
      requires s.phase.Down? && spool.Disk() == s.spool && server.State() == s.server
      ensures View() == Do(s, Start) && this.spool == spool && this.server == server && fresh(store)
    {
      this.host, this.spool, this.server := s.host, spool, server;
      store := new SnapshotStore(s.store);
      phase, used, baselines := Boot, s.used, s.baselines;
      origin, earlier, events, halved := s.origin, s.earlier, s.events, s.halved;
    }

    method ScanFile(f: Found) returns (created: bool, skipped: bool)
      requires phase.Boot? && (f.state.Content? ==> f.state.hash != "")
      modifies this, store
      ensures phase.Boot? && View() == Run(old(View()), ScanStep(f))
      ensures created <==> IsCreated(old(View()), f)
      ensures skipped <==> IsSkipped(old(View()), f)
    {
      created, skipped := false, false;
      if !f.tracked {
        return;
      }
      if f.state.Content? {
        RunOne(View(), Baseline(f.path, f.state.data, f.state.hash, f.written, f.noted, f.saves));
      }
      var stored := CurrentHash(store.Value(), f.path);
      if stored.Some? && ContentExists(store.Value(), stored.value) {
        return false, true;
      }
      if !f.state.Content? || |f.state.data| > MAX_FILE_BYTES {
        return;
      }
      var ok := store.WriteSnapshot(f.state.hash, f.state.data, f.written, f.noted);
      if !ok {
        return;
      }
      baselines := baselines + {(f.path, f.state.hash)};
      created := store.SetCurrentHash(f.path, f.state.hash, f.saves);
    }

    method BaselineScan(found: seq<Found>) returns (stats: BaselineStats)
      requires phase.Boot? && forall k :: 0 <= k < |found| && found[k].state.Content? ==> found[k].state.hash != ""
      modifies this, store
      ensures phase.Boot? && View() == Run(old(View()), ScanSteps(found))
      ensures stats == BaselineStats(|found|, CreatedIn(old(View()), found), SkippedIn(old(View()), found))
    {
      var created, skipped := 0, 0;
      ghost var s := View();
      for i := 0 to |found|
        invariant phase.Boot? && View() == Run(s, ScanSteps(found[..i]))
        invariant created == CreatedIn(s, found[..i]) && skipped == SkippedIn(s, found[..i])
      {
        var isNew, isOld := ScanFile(found[i]);
        ScanOneMore(s, found[..i], found[i]);
        assert found[..i + 1] == found[..i] + [found[i]];
        if isNew {
          created := created + 1;
        } else if isOld {
          skipped := skipped + 1;
        }
      }
      assert found[..|found|] == found;
      stats := BaselineStats(|found|, created, skipped);
    }

    method Post(event: ChangeEvent, call: Call) returns (ok: bool)
      modifies server
      ensures
        var (after, outcome) := I.IngestOnce(old(server.State()), BodyOf(event), call.c);
        && server.State() == (if call.reached then after else old(server.State()))
        && (ok <==> call.reached && I.PublishSucceeds(outcome, call.replyLost, call.parses))
    {
      if !call.reached {
        return false;
      }
      var outcome := server.IngestChange(BodyOf(event), call.c);
      ok := !call.replyLost && I.ClientAccepts(I.StatusOf(outcome), call.parses);
    }

    method SendEvent(event: ChangeEvent, next: Next, call: Call) returns (ok: bool)
      requires phase == Publishing(event, next)
      modifies this, server
      ensures View() == Do(old(View()), Send(call.reached, call.c, call.replyLost, call.parses))
      ensures phase == if ok then Confirming(event, next)
                       else if next.Replayed? then Replay(next.queue) else Retrying(event, next.decision)
    {
      ok := Post(event, call);
      phase := if ok then Confirming(event, next)
               else if next.Replayed? then Replay(next.queue)
               else Retrying(event, next.decision);
    }

    method MarkSent(event: ChangeEvent, next: Next, io: SpoolIo)
      requires phase == Confirming(event, next)
      modifies this, spool
      ensures View() == Do(Do(old(View()), IndexStep(io)), StatusStep(io))
      ensures phase == Resume(old(View()), event, next).phase
    {
      var _ := spool.MarkDelivered(event.id, io);
      phase := Resume(View(), event, next).phase;
    }

    /** Sends the event; on success marks it as delivered. */
    method PublishAndMark(event: ChangeEvent, next: Next, call: Call, io: SpoolIo) returns (ok: bool)
      requires phase == Publishing(event, next)
      modifies this, spool, server
      ensures View() == Run(old(View()), PublishSteps(call, io))
      ensures ok || next.Replayed? ==> phase == Resume(old(View()), event, next).phase
      ensures !ok && next.Handled? ==> phase == Retrying(event, next.decision)
    {
      RunThree(View(), PublishSteps(call, io)[0], IndexStep(io), StatusStep(io));
      ok := SendEvent(event, next, call);
      if ok {
        MarkSent(event, next, io);
      }
    }

    /** `listing` names the readable files of the spool; `calls` and `marks` say how each publish goes. */
    method ReplayPending(listing: seq<I.EventId>, calls: seq<Call>, marks: seq<SpoolIo>)
      requires phase.Boot? && Safe(View())
      requires |PendingIn(spool.Disk(), listing)| == |calls| == |marks|
      modifies this, spool, server
      ensures
        var queue := SortByTime(PendingIn(old(spool.Disk()), listing));
        View() == Run(old(View()), [List(queue)] + ReplaySteps(calls, marks) + [NextEntry])
      ensures phase.Idle?
    {
      ghost var s := View();
      var entries := spool.PendingEntries(listing);
      PendingIsQueue(spool.Disk(), listing);
      ghost var list := [List(entries)];
      RunOne(s, List(entries));
      phase := Replay(entries);
      assert entries[0..] == entries;
      for i := 0 to |entries|
        invariant phase == Replay(entries[i..]) && View() == Run(Run(s, list), ReplaySteps(calls[..i], marks[..i]))
      {
        assert entries[i..][1..] == entries[i + 1..];
        assert calls[..i + 1] == calls[..i] + [calls[i]] && marks[..i + 1] == marks[..i] + [marks[i]];
        ReplayOneMore(Run(s, list), calls[..i], marks[..i], calls[i], marks[i]);
        ReplayOne(entries[i..], calls[i], marks[i]);
      }
      assert calls[..|entries|] == calls && marks[..|entries|] == marks;
      FinishReplay(s, list, ReplaySteps(calls, marks));
    }

    method FinishReplay(ghost s: System, ghost a: seq<Action>, ghost b: seq<Action>)
      requires phase == Replay([]) && View() == Run(Run(s, a), b)
      modifies this
      ensures phase.Idle? && View() == Run(s, a + b + [NextEntry])
    {
      RunAppend(s, a, b);
      RunAppend(s, a + b, [NextEntry]);
      RunOne(View(), NextEntry);
      phase, origin, earlier, events, halved := Idle, store.state, spool.files.Keys, [], [];
    }

    method ReplayOne(queue: seq<SpoolEntry>, call: Call, io: SpoolIo)
      requires queue != [] && phase == Replay(queue)
      modifies this, spool, server
      ensures phase == Replay(queue[1..]) && View() == Run(old(View()), [NextEntry] + PublishSteps(call, io))
    {
      RunAppend(View(), [NextEntry], PublishSteps(call, io));
      RunOne(View(), NextEntry);
      phase := Publishing(queue[0].event, Replayed(queue[1..]));
      var _ := PublishAndMark(queue[0].event, Replayed(queue[1..]), call, io);
    }

    /** Writes the event to the spool. */
    method SpoolEvent(event: ChangeEvent, decision: Decision, now: int, io: SpoolIo) returns (ok: bool)
      requires phase == Spooling(event, decision)
      modifies this, spool
      ensures View() == Run(old(View()), SpoolSteps(now, io))
      ensures phase == if ok then Publishing(event, Handled(decision)) else Idle
    {
      RunTwo(View(), SpoolSteps(now, io)[0], IndexStep(io));
      ok := spool.AppendEvent(event, now, io);
      phase := if ok then Publishing(event, Handled(decision)) else Idle;
      if io.dirReadable && io.fileWritten {
        events := events + [event];
        halved := if ok then halved else halved + [event];
      }
    }

    /** Counts the failed publish; after five of them the event fails for good. `alive` is false when the
        count cannot be written, which ends the agent. */
    method CountFailure(event: ChangeEvent, decision: Decision, now: int, io: SpoolIo, failing: SpoolIo)
      returns (alive: bool)
      requires phase == Retrying(event, decision)
      modifies this, spool
      ensures View() == Run(old(View()), RetrySteps(now, io, failing))
      ensures phase == if alive then Resume(old(View()), event, Handled(decision)).phase else Down
    {
      RunThree(View(), RetrySteps(now, io, failing)[0], IndexStep(failing), StatusStep(failing));
      var attempts := CountOnce(event, decision, now, io);
      if attempts.Some? && attempts.value >= MAX_PUBLISH_RETRIES {
        FailForGood(event, decision, failing);
      }
      alive := attempts.Some?;
    }

    method CountOnce(event: ChangeEvent, decision: Decision, now: int, io: SpoolIo) returns (attempts: Option<nat>)
      requires phase == Retrying(event, decision)
      modifies this, spool
      ensures View() == Do(old(View()), Count(FileRewritten(io), now))
      ensures phase == if attempts.None? then Down
                       else if attempts.value >= MAX_PUBLISH_RETRIES then Failing(event, decision)
                       else Resume(old(View()), event, Handled(decision)).phase
    {
      attempts := spool.IncrementAttempts(event.id, now, io);
      phase := if attempts.None? then Down
               else if attempts.value >= MAX_PUBLISH_RETRIES then Failing(event, decision)
               else Resume(View(), event, Handled(decision)).phase;
    }

    method FailForGood(event: ChangeEvent, decision: Decision, io: SpoolIo)
      requires phase == Failing(event, decision)
      modifies this, spool
      ensures View() == Do(Do(old(View()), IndexStep(io)), StatusStep(io))
      ensures phase == Resume(old(View()), event, Handled(decision)).phase
    {
      var _ := spool.MarkFailed(event.id, "max retries exceeded", io);
      phase := Resume(View(), event, Handled(decision)).phase;
    }

    /** Keeps the new content and sets the new hash. */
    method AdvanceHash(event: ChangeEvent, decision: Decision, written: bool, noted: bool, saves: bool)
      requires phase == Keeping(event, decision) && (decision.Changed? || decision.FileCreated?)
      modifies this, store
      ensures phase.Idle? && View() == Run(old(View()), HashSteps(written, noted, saves))
    {
      RunTwo(View(), KeepContent(written, noted), SetCurrent(saves));
      var _ := store.WriteSnapshot(decision.current, decision.data, written, noted);
      var _ := store.SetCurrentHash(event.transition.path, decision.current, saves);
      phase := Idle;
    }

    /** Decides what happened to the file and builds the event; an error ends the agent. */
    method TakeFile(file: FileEvent, w: World) returns (alive: bool, work: Option<(ChangeEvent, Decision)>)
      requires phase.Idle? && w.id !in used && (w.state.Content? ==> w.state.hash != "")
      modifies this
      ensures View() == Do(old(View()), Take(file, w.state, w.readable, w.id))
      ensures work.None? ==> phase == if alive then Idle else Down
      ensures work.Some? ==>
                && phase == Spooling(work.value.0, work.value.1)
                && (work.value.1.Changed? || work.value.1.FileCreated? <==> CurrentOf(work.value.1) != "")
    {
      alive, work := true, None;
      var acquired := SnapshotAcquire(store.Value(), file, w.state, w.readable);
      if acquired.Exit? {
        phase := Down;
        return false, None;
      }
      var decision := acquired.decision;
      if decision.Unchanged? {
        return;
      }
      var event := BuildEvent(w.id, host, file, decision);
      phase, used := Spooling(event, decision), used + {w.id};
      work := Some((event, decision));
    }

    /** Handles one debounced event, from the decision to the new hash. `alive` is false when an error ends
        the agent. */
    method HandleEvent(file: FileEvent, w: World) returns (alive: bool)
      requires phase.Idle? && w.id !in used && (w.state.Content? ==> w.state.hash != "")
      modifies this, spool, store, server
      ensures View() == Run(old(View()), EventSteps(file, w))
      ensures phase == if alive then Idle else Down
    {
      SplitSteps(View(), file, w);
      var work;
      alive, work := TakeFile(file, w);
      if work.None? {
        QuietSpool(View(), w.now, w.appending);
        QuietDelivery(View(), w);
        return;
      }
      var (event, decision) := work.value;
      var spooled := SpoolEvent(event, decision, w.now, w.appending);
      if !spooled {
        QuietDelivery(View(), w);
        return true;
      }
      alive := DeliverEvent(event, decision, w);
    }

    method DeliverEvent(event: ChangeEvent, decision: Decision, w: World) returns (alive: bool)
      requires phase == Publishing(event, Handled(decision))
      requires decision.Changed? || decision.FileCreated? <==> CurrentOf(decision) != ""
      modifies this, spool, store, server
      ensures View() == AfterDelivery(old(View()), w)
      ensures phase == if alive then Idle else Down
    {
      alive := true;
      var ok := PublishAndMark(event, Handled(decision), w.call, w.marking);
      if ok {
        QuietRetry(View(), w.now, w.counting, w.failing);
      } else {
        alive := CountFailure(event, decision, w.now, w.counting, w.failing);
      }
      if alive && (decision.Changed? || decision.FileCreated?) {
        AdvanceHash(event, decision, w.written, w.noted, w.saves);
      } else {
        QuietHash(View(), w.written, w.noted, w.saves);
      }
    }
  }

  lemma PendingIsQueue(d: SpoolDisk, listing: seq<I.EventId>)
    requires forall id :: id in d.files ==> d.files[id].event.id == id
    ensures PendingQueue(d, SortByTime(PendingIn(d, listing)))
    ensures |SortByTime(PendingIn(d, listing))| == |PendingIn(d, listing)|
  {
    var found := PendingIn(d, listing);
    var queue := SortByTime(found);
    SortSorts(found);
    assert |multiset(queue)| == |queue| && |multiset(found)| == |found|;
    forall k | 0 <= k < |queue|
      ensures queue[k].event.id in d.files && d.files[queue[k].event.id] == queue[k] && queue[k].status.Pending?
    {
      assert queue[k] in multiset(queue);
      assert queue[k] in found;
      PendingInHolds(d, listing, queue[k]);
    }
  }
}
