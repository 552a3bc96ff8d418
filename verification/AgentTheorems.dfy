/** What the steps of whole operations of the agent do to its disk: a deletion and the return of its file, a
    replay, and the contents that are kept. */
module AgentTheorems {
  import I = Ingest
  import opened Spool
  import opened Snapshots
  import opened Delivery
  import opened DeliveryTheorems
  import opened Agent

  // ----- a deletion leaves the stored hash ------------------------------------------------------------

  predicate SetsNoHash(d: Decision) {
    CurrentOf(d) == ""
  }

  predicate NextSetsNoHash(next: Next) {
    next.Handled? && SetsNoHash(next.decision)
  }

  /** A phase of the main loop that leads to no new content and no new hash. */
  predicate Deleting(p: Phase) {
    match p
    case Down => true
    case Boot => false
    case Replay(_) => false
    case Idle => true
    case Publishing(_, next) => NextSetsNoHash(next)
    case Confirming(_, next) => NextSetsNoHash(next)
    case Recording(_, next) => NextSetsNoHash(next)
    case Keeping(_, _) => false
    case Setting(_, _) => false
    case _ => SetsNoHash(p.decision)
  }

  /** An action of the handling of an event, which can only be a deletion. */
  predicate Handling(a: Action) {
    && !a.Crash? && !a.Start? && !a.Baseline? && !a.List? && !a.NextEntry? && !a.Evict? && !a.Elsewhere?
    && (a.Take? ==> a.file.kind.Deleted?)
  }

  lemma DeletingStep(s: System, a: Action)
    requires Deleting(s.phase) && Handling(a)
    ensures Do(s, a).store == s.store && Deleting(Do(s, a).phase)
  {
  }

  lemma {:induction false} DeletingRun(s: System, actions: seq<Action>)
    requires Deleting(s.phase) && forall k :: 0 <= k < |actions| ==> Handling(actions[k])
    ensures Run(s, actions).store == s.store
    decreases |actions|
  {
    if actions != [] {
      DeletingStep(s, actions[0]);
      DeletingRun(Do(s, actions[0]), actions[1..]);
    }
  }

  lemma DeletionKeepsStore(s: System, gone: FileEvent, w: World)
    requires s.phase.Idle? && gone.kind.Deleted?
    ensures Run(s, EventSteps(gone, w)).store == s.store
  {
    DeletingRun(s, EventSteps(gone, w));
  }

  lemma UnchangedFileIsQuiet(s: System, file: FileEvent, w: World)
    requires s.phase.Idle? && Do(s, Take(file, w.state, w.readable, w.id)) == s
    ensures Run(s, EventSteps(file, w)) == s
  {
    SplitSteps(s, file, w);
    QuietSpool(s, w.now, w.appending);
    QuietDelivery(s, w);
  }

  lemma TakenIffNewHash(s: System, back: FileEvent, state: FileState, readable: bool, id: I.EventId)
    requires s.phase.Idle? && !back.kind.Deleted? && id !in s.used
    requires state.Content? && |state.data| <= MAX_FILE_BYTES && state.hash != ""
    ensures
      var s' := Do(s, Take(back, state, readable, id));
      if state.hash == StoredHash(s.store, back.path) then s' == s else s'.phase.Spooling?
  {
  }

  /** Whatever happens while a deletion is delivered, it leaves the stored hash. So when the file comes back,
      it is reported if and only if its bytes have another hash; with the same hash nothing at all happens. */
  lemma ReturnReportedIffNewHash(s: System, gone: FileEvent, w: World, back: FileEvent, w': World)
    requires s.phase.Idle? && gone.kind.Deleted? && back.path == gone.path && !back.kind.Deleted?
    requires w'.state.Content? && |w'.state.data| <= MAX_FILE_BYTES && w'.state.hash != ""
    requires Run(s, EventSteps(gone, w)).phase.Idle? && w'.id !in Run(s, EventSteps(gone, w)).used
    ensures
      var s' := Run(s, EventSteps(gone, w));
      && (Do(s', Take(back, w'.state, w'.readable, w'.id)).phase.Spooling?
          <==> w'.state.hash != StoredHash(s.store, back.path))
      && (w'.state.hash == StoredHash(s.store, back.path) ==> Run(s', EventSteps(back, w')) == s')
  {
    var s' := Run(s, EventSteps(gone, w));
    DeletionKeepsStore(s, gone, w);
    TakenIffNewHash(s', back, w'.state, w'.readable, w'.id);
    if w'.state.hash == StoredHash(s.store, back.path) {
      UnchangedFileIsQuiet(s', back, w');
    }
  }

  // ----- what a scan prepares -------------------------------------------------------------------------

  /** The file has a stored hash whose content is kept. */
  predicate Ready(s: Store, path: string) {
    path in s.current && s.current[path] != "" && s.current[path] in s.contents
  }

  /** What one baseline leaves: nothing for a file whose stored content is there, one over 5 MiB, or a failed
      write; the content only if the map could not be saved with it; and otherwise the new hash, saved or not. */
  lemma BaselineTakenIff(s: System, path: string, data: Bytes, hash: string, written: bool, noted: bool, saved: bool)
    requires s.phase.Boot? && hash != ""
    ensures
      var s' := Do(s, Baseline(path, data, hash, written, noted, saved));
      var current := s.store.current;
      if (path in current && |current[path]| >= 2 && current[path] in s.store.contents) || |data| > 5_242_880
         || !written then s' == s
      else if !noted then s' == s.(store := s.store.(contents := s.store.contents[hash := data]))
      else
        && s'.store.contents == s.store.contents[hash := data] && s'.store.current == current[path := hash]
        && s'.store.saved == (if saved then current[path := hash] else current)
        && s'.baselines == s.baselines + {(path, hash)}
        && s' == s.(store := s'.store, baselines := s'.baselines)
  {
  }

  /** How a file of the scan is counted: as skipped if and only if its stored content is there, and as created if
      and only if it got a baseline; the hash of a created file is stored and saved. */
  lemma ScanCountedIff(s: System, f: Found)
    requires s.phase.Boot? && (f.state.Content? ==> f.state.hash != "")
    ensures
      var current, s' := s.store.current, Run(s, ScanStep(f));
      var there := f.path in current && |current[f.path]| >= 2 && current[f.path] in s.store.contents;
      && (IsSkipped(s, f) <==> f.tracked && there)
      && (IsCreated(s, f) <==> f.tracked && !there && f.state.Content? && |f.state.data| <= 5_242_880
                               && f.written && f.noted && f.saves)
      && (!f.tracked || !f.state.Content? ==> s' == s)
      && (IsCreated(s, f) ==>
            && s'.store == Store(s.store.contents[f.state.hash := f.state.data], current[f.path := f.state.hash],
                                 current[f.path := f.state.hash]))
  {
    if f.tracked && f.state.Content? {
      RunOne(s, ScanStep(f)[0]);
    }
  }

  /** The file can be read and its content can be kept. */
  predicate Keepable(f: Found) {
    && f.tracked && f.state.Content? && f.state.hash != "" && |f.state.data| <= MAX_FILE_BYTES
    && f.written && f.noted
  }

  lemma ScanStepReadies(s: System, f: Found, path: string)
    requires s.phase.Boot? && (Ready(s.store, path) || (Keepable(f) && f.path == path))
    ensures Run(s, ScanStep(f)).phase.Boot? && Ready(Run(s, ScanStep(f)).store, path)
  {
    if f.tracked && f.state.Content? {
      RunOne(s, ScanStep(f)[0]);
    }
  }

  lemma {:induction false} ScanStaysInBoot(s: System, found: seq<Found>)
    requires s.phase.Boot?
    ensures Run(s, ScanSteps(found)).phase.Boot?
  {
    if found != [] {
      var n := |found| - 1;
      ScanStaysInBoot(s, found[..n]);
      assert found == found[..n] + [found[n]];
      ScanOneMore(s, found[..n], found[n]);
      if found[n].tracked && found[n].state.Content? {
        RunOne(Run(s, ScanSteps(found[..n])), ScanStep(found[n])[0]);
      }
    }
  }

  /** After a baseline scan every file that could be read and kept has a previous version, whatever was in
      the store before and however often the scan meets the file. */
  lemma {:induction false} ScanReadies(s: System, found: seq<Found>, k: nat)
    requires s.phase.Boot? && k < |found| && Keepable(found[k])
    ensures Ready(Run(s, ScanSteps(found)).store, found[k].path)
    decreases |found|
  {
    var n := |found| - 1;
    assert found == found[..n] + [found[n]];
    ScanOneMore(s, found[..n], found[n]);
    ScanStaysInBoot(s, found[..n]);
    if k < n {
      ScanReadies(s, found[..n], k);
    }
    ScanStepReadies(Run(s, ScanSteps(found[..n])), found[n], found[k].path);
  }

  /** And for such a file a modification is reported with that version's bytes to diff against. */
  lemma FirstModificationHasPrevious(s: System, found: seq<Found>, k: nat, event: FileEvent, data: Bytes, hash: string)
    requires s.phase.Boot? && k < |found| && Keepable(found[k]) && event.path == found[k].path && !event.kind.Deleted?
    requires |data| <= MAX_FILE_BYTES && hash != StoredHash(Run(s, ScanSteps(found)).store, event.path)
    ensures
      var store := Run(s, ScanSteps(found)).store;
      var previous := StoredHash(store, event.path);
      && previous in store.contents
      && SnapshotAcquire(store, event, Content(data, hash), true)
         == Decided(Changed(previous, hash, store.contents[previous], data))
  {
    ScanReadies(s, found, k);
  }

  // ----- what a replay settles ------------------------------------------------------------------------

  /** The publish succeeds, and both writes that mark the event work. */
  predicate Delivers(s: System, event: ChangeEvent, call: Call, io: SpoolIo) {
    && call.reached && I.PublishSucceeds(I.IngestOnce(s.server, BodyOf(event), call.c).1, call.replyLost, call.parses)
    && io.indexWritten && FileRewritten(io)
  }

  /** The ids that a replay delivers, from a state in which `queue` comes next. */
  function DeliveredIds(s: System, queue: seq<SpoolEntry>, calls: seq<Call>, marks: seq<SpoolIo>): set<I.EventId>
    requires |queue| == |calls| == |marks|
  {
    if queue == [] then {}
    else
      var n := |queue| - 1;
      var before := Run(s, ReplaySteps(calls[..n], marks[..n]));
      DeliveredIds(s, queue[..n], calls[..n], marks[..n])
      + (if Delivers(before, queue[n].event, calls[n], marks[n]) then {queue[n].event.id} else {})
  }

  function Settled(files: map<I.EventId, SpoolEntry>, ids: set<I.EventId>): map<I.EventId, SpoolEntry> {
    map id | id in files :: if id in ids then files[id].(status := Delivered) else files[id]
  }

  lemma ReplayPublish(s: System, event: ChangeEvent, rest: seq<SpoolEntry>, call: Call, io: SpoolIo)
    requires s.phase == Publishing(event, Replayed(rest))
    ensures
      var s' := Run(s, PublishSteps(call, io));
      && s'.phase == Replay(rest)
      && s'.spool.files == (if Delivers(s, event, call, io) then WriteStatus(s.spool, event.id, Delivered).files
                            else s.spool.files)
  {
    RunThree(s, PublishSteps(call, io)[0], IndexStep(io), StatusStep(io));
  }

  lemma SettledOne(d: SpoolDisk, id: I.EventId)
    ensures WriteStatus(d, id, Delivered).files == Settled(d.files, {id})
    ensures Settled(d.files, {}) == d.files
  {
  }

  lemma ReplayStep(s: System, head: SpoolEntry, rest: seq<SpoolEntry>, call: Call, io: SpoolIo)
    requires s.phase == Replay([head] + rest)
    ensures
      var s' := Run(s, [NextEntry] + PublishSteps(call, io));
      && s'.phase == Replay(rest)
      && s'.spool.files == Settled(s.spool.files, if Delivers(s, head.event, call, io) then {head.event.id} else {})
  {
    RunAppend(s, [NextEntry], PublishSteps(call, io));
    RunOne(s, NextEntry);
    assert ([head] + rest)[1..] == rest;
    ReplayPublish(Do(s, NextEntry), head.event, rest, call, io);
    SettledOne(s.spool, head.event.id);
  }

  lemma SettledTwice(files: map<I.EventId, SpoolEntry>, a: set<I.EventId>, b: set<I.EventId>)
    ensures Settled(Settled(files, a), b) == Settled(files, a + b)
  {
  }

  lemma {:induction false} ReplayRun(s: System, queue: seq<SpoolEntry>, rest: seq<SpoolEntry>, calls: seq<Call>,
                                     marks: seq<SpoolIo>)
    requires |queue| == |calls| == |marks| && s.phase == Replay(queue + rest)
    ensures
      var s' := Run(s, ReplaySteps(calls, marks));
      s'.phase == Replay(rest) && s'.spool.files == Settled(s.spool.files, DeliveredIds(s, queue, calls, marks))
    decreases |queue|
  {
    if queue == [] {
      assert queue + rest == rest;
      assert Settled(s.spool.files, {}) == s.spool.files;
    } else {
      var n := |queue| - 1;
      var s' := Run(s, ReplaySteps(calls[..n], marks[..n]));
      assert queue + rest == queue[..n] + ([queue[n]] + rest);
      ReplayRun(s, queue[..n], [queue[n]] + rest, calls[..n], marks[..n]);
      ReplayStep(s', queue[n], rest, calls[n], marks[n]);
      assert calls == calls[..n] + [calls[n]] && marks == marks[..n] + [marks[n]];
      ReplayOneMore(s, calls[..n], marks[..n], calls[n], marks[n]);
      SettledTwice(s.spool.files, DeliveredIds(s, queue[..n], calls[..n], marks[..n]),
                   if Delivers(s', queue[n].event, calls[n], marks[n]) then {queue[n].event.id} else {});
    }
  }

  /** The steps of a replay, as the agent's own method does them. */
  function WholeReplay(queue: seq<SpoolEntry>, calls: seq<Call>, marks: seq<SpoolIo>): seq<Action>
    requires |calls| == |marks|
  {
    [List(queue)] + ReplaySteps(calls, marks) + [NextEntry]
  }

  lemma ReplayInParts(s: System, queue: seq<SpoolEntry>, calls: seq<Call>, marks: seq<SpoolIo>)
    requires |calls| == |marks|
    ensures Run(s, WholeReplay(queue, calls, marks))
            == Do(Run(Do(s, List(queue)), ReplaySteps(calls, marks)), NextEntry)
  {
    RunAppend(s, [List(queue)] + ReplaySteps(calls, marks), [NextEntry]);
    RunAppend(s, [List(queue)], ReplaySteps(calls, marks));
    RunOne(s, List(queue));
    RunOne(Run(Do(s, List(queue)), ReplaySteps(calls, marks)), NextEntry);
  }

  lemma EmptyQueueEnds(s: System)
    requires s.phase == Replay([])
    ensures Do(s, NextEntry).phase.Idle? && Do(s, NextEntry).spool == s.spool
  {
  }

  lemma ListStarts(s: System, queue: seq<SpoolEntry>)
    requires s.phase.Boot? && PendingQueue(s.spool, queue)
    ensures Do(s, List(queue)) == s.(phase := Replay(queue))
  {
  }

  lemma ReplayFiles(s: System, queue: seq<SpoolEntry>, calls: seq<Call>, marks: seq<SpoolIo>)
    requires s.phase.Boot? && PendingQueue(s.spool, queue) && |queue| == |calls| == |marks|
    ensures
      var s' := Run(s, WholeReplay(queue, calls, marks));
      s'.phase.Idle? && s'.spool.files == Settled(s.spool.files, DeliveredIds(Do(s, List(queue)), queue, calls, marks))
  {
    var s1 := Do(s, List(queue));
    ListStarts(s, queue);
    assert queue + [] == queue;
    ReplayInParts(s, queue, calls, marks);
    ReplayRun(s1, queue, [], calls, marks);
    EmptyQueueEnds(Run(s1, ReplaySteps(calls, marks)));
  }

  /** A replay changes the files of exactly the entries it delivers, to delivered. A file still waits
      afterwards if and only if it did before and no try for it worked; of all others the key is stored. */
  lemma ReplaySettlesWhatItDelivers(s: System, queue: seq<SpoolEntry>, calls: seq<Call>, marks: seq<SpoolIo>,
                                    id: I.EventId)
    requires s.phase.Boot? && Safe(s) && PendingQueue(s.spool, queue) && |queue| == |calls| == |marks|
    requires id in s.spool.files
    ensures
      var s' := Run(s, WholeReplay(queue, calls, marks));
      var done := DeliveredIds(Do(s, List(queue)), queue, calls, marks);
      && s'.phase.Idle? && id in s'.spool.files
      && s'.spool.files[id] == (if id in done then s.spool.files[id].(status := Delivered) else s.spool.files[id])
      && (s'.spool.files[id].status.Pending? <==> s.spool.files[id].status.Pending? && id !in done)
      && (!s'.spool.files[id].status.Pending? ==> Stored(s'.server.rows, s.spool.files[id].event))
  {
    ReplayFiles(s, queue, calls, marks);
    RunsAreSafe(s, WholeReplay(queue, calls, marks));
  }

  predicate AllDeliver(s: System, queue: seq<SpoolEntry>, calls: seq<Call>, marks: seq<SpoolIo>)
    requires |queue| == |calls| == |marks|
  {
    queue == [] ||
    (var n := |queue| - 1;
     && AllDeliver(s, queue[..n], calls[..n], marks[..n])
     && Delivers(Run(s, ReplaySteps(calls[..n], marks[..n])), queue[n].event, calls[n], marks[n]))
  }

  lemma {:induction false} AllAreDelivered(s: System, queue: seq<SpoolEntry>, calls: seq<Call>, marks: seq<SpoolIo>,
                                           k: nat)
    requires |queue| == |calls| == |marks| && AllDeliver(s, queue, calls, marks) && k < |queue|
    ensures queue[k].event.id in DeliveredIds(s, queue, calls, marks)
    decreases |queue|
  {
    var n := |queue| - 1;
    if k < n {
      AllAreDelivered(s, queue[..n], calls[..n], marks[..n], k);
    }
  }

  lemma GoodReplaySettles(s: System, listing: seq<I.EventId>, queue: seq<SpoolEntry>, calls: seq<Call>,
                          marks: seq<SpoolIo>, id: I.EventId)
    requires s.phase.Boot? && Safe(s) && forall i :: i in s.spool.files <==> i in listing
    requires queue == SortByTime(PendingIn(s.spool, listing)) && PendingQueue(s.spool, queue)
    requires |queue| == |calls| == |marks| && AllDeliver(Do(s, List(queue)), queue, calls, marks) && id in s.spool.files
    ensures
      var s' := Run(s, WholeReplay(queue, calls, marks));
      id in s'.spool.files && s'.spool.files[id].status.Delivered? && Stored(s'.server.rows, s'.spool.files[id].event)
  {
    if s.spool.files[id].status.Pending? {
      PendingEntriesAreThePendingFiles(s.spool, listing, s.spool.files[id]);
      var k :| 0 <= k < |queue| && queue[k] == s.spool.files[id];
      AllAreDelivered(Do(s, List(queue)), queue, calls, marks, k);
    }
    ReplaySettlesWhatItDelivers(s, queue, calls, marks, id);
  }

  /** After a replay that lists every file and whose sends and marks all work, no file waits and the key of
      every spooled event is stored. */
  lemma GoodReplayEmptiesTheSpool(s: System, listing: seq<I.EventId>, calls: seq<Call>, marks: seq<SpoolIo>)
    requires s.phase.Boot? && Safe(s) && forall id :: id in s.spool.files <==> id in listing
    requires |SortByTime(PendingIn(s.spool, listing))| == |calls| == |marks|
    requires AllDeliver(Do(s, List(SortByTime(PendingIn(s.spool, listing)))), SortByTime(PendingIn(s.spool, listing)),
                        calls, marks)
    ensures
      var s' := Run(s, WholeReplay(SortByTime(PendingIn(s.spool, listing)), calls, marks));
      && s'.spool.files.Keys == s.spool.files.Keys
      && forall id :: id in s'.spool.files ==>
           s'.spool.files[id].status.Delivered? && Stored(s'.server.rows, s'.spool.files[id].event)
  {
    var queue := SortByTime(PendingIn(s.spool, listing));
    PendingIsQueue(s.spool, listing);
    ReplayFiles(s, queue, calls, marks);
    forall id | id in s.spool.files
      ensures
        var s' := Run(s, WholeReplay(queue, calls, marks));
        id in s'.spool.files && s'.spool.files[id].status.Delivered? && Stored(s'.server.rows, s'.spool.files[id].event)
    {
      GoodReplaySettles(s, listing, queue, calls, marks, id);
    }
  }

  // ----- contents and hashes --------------------------------------------------------------------------

  /** Every content file is named by the hash of its bytes. */
  predicate Genuine(hash: Bytes -> string, s: Store) {
    forall h :: h in s.contents ==> hash(s.contents[h]) == h
  }

  /** The contents of a decision are those that its hashes name; the old content of a deleted file may be
      missing. */
  predicate DecisionGenuine(hash: Bytes -> string, d: Decision) {
    match d
    case Unchanged => true
    case Changed(previous, current, previousData, data) => hash(previousData) == previous && hash(data) == current
    case FileCreated(current, data) => hash(data) == current
    case FileDeleted(previous, previousData) => previousData == [] || hash(previousData) == previous
  }

  predicate PhaseGenuine(hash: Bytes -> string, p: Phase) {
    match p
    case Down => true
    case Boot => true
    case Replay(_) => true
    case Idle => true
    case Publishing(_, next) => next.Handled? ==> DecisionGenuine(hash, next.decision)
    case Confirming(_, next) => next.Handled? ==> DecisionGenuine(hash, next.decision)
    case Recording(_, next) => next.Handled? ==> DecisionGenuine(hash, next.decision)
    case _ => DecisionGenuine(hash, p.decision)
  }

  /** The hash that comes with a content is computed from its bytes. */
  predicate Honest(hash: Bytes -> string, a: Action) {
    && (a.Take? && a.state.Content? ==> a.state.hash == hash(a.state.data))
    && (a.Baseline? ==> a.hash == hash(a.data))
  }

  predicate AllHonest(hash: Bytes -> string, actions: seq<Action>) {
    forall k :: 0 <= k < |actions| ==> Honest(hash, actions[k])
  }

  lemma DeliveringKeepsStore(s: System, a: Action)
    requires Delivering(a)
    ensures Do(s, a).store == s.store
  {
  }

  lemma DeliveringKeepsGenuine(hash: Bytes -> string, s: System, a: Action)
    requires PhaseGenuine(hash, s.phase) && Delivering(a)
    ensures PhaseGenuine(hash, Do(s, a).phase)
  {
  }

  lemma OthersKeepGenuine(hash: Bytes -> string, s: System, a: Action)
    requires Genuine(hash, s.store) && PhaseGenuine(hash, s.phase) && Honest(hash, a) && !Delivering(a)
    ensures Genuine(hash, Do(s, a).store) && PhaseGenuine(hash, Do(s, a).phase)
  {
  }

  lemma StepKeepsGenuine(hash: Bytes -> string, s: System, a: Action)
    requires Genuine(hash, s.store) && PhaseGenuine(hash, s.phase) && Honest(hash, a)
    ensures Genuine(hash, Do(s, a).store) && PhaseGenuine(hash, Do(s, a).phase)
  {
    if Delivering(a) {
      DeliveringKeepsStore(s, a);
      DeliveringKeepsGenuine(hash, s, a);
    } else {
      OthersKeepGenuine(hash, s, a);
    }
  }

  /** Over every run, with evictions, failed writes and crashes: every content file is named by the hash of
      its bytes, and the two contents that an event's diff is made of are those its hashes name. */
  lemma {:induction false} ContentsAreNamedByHash(hash: Bytes -> string, s: System, actions: seq<Action>)
    requires Genuine(hash, s.store) && PhaseGenuine(hash, s.phase) && AllHonest(hash, actions)
    ensures Genuine(hash, Run(s, actions).store) && PhaseGenuine(hash, Run(s, actions).phase)
    decreases |actions|
  {
    if actions != [] {
      StepKeepsGenuine(hash, s, actions[0]);
      ContentsAreNamedByHash(hash, Do(s, actions[0]), actions[1..]);
    }
  }
}
