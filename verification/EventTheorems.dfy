/** What becomes of one event of the main loop: what is reported, what the spool, the control plane and the
    store hold afterwards, and what of it is left after a crash. */
module EventTheorems {
  import opened Options
  import opened IdempotencyKeys
  import I = Ingest
  import IO = IngestOutcomes
  import opened Spool
  import opened Snapshots
  import opened Delivery
  import opened Agent

  // ----- what is reported ---------------------------------------------------------------------------

  /** A hash is stored for the file. */
  predicate Tracked(s: System, path: string) {
    path in s.store.current && s.store.current[path] != ""
  }

  /** The stored version of the file can be read. */
  predicate HasPrevious(s: System, path: string, readable: bool) {
    Tracked(s, path) && readable && s.store.current[path] in s.store.contents
  }

  /** A deletion is reported if and only if a hash is stored for the file, as the transition from that hash to
      none. Otherwise nothing happens. */
  lemma DeletionReportedIffTracked(s: System, gone: FileEvent, state: FileState, readable: bool, id: I.EventId)
    requires s.phase.Idle? && gone.kind == Deleted && id !in s.used && (state.Content? ==> state.hash != "")
    ensures
      var s' := Do(s, Take(gone, state, readable, id));
      if Tracked(s, gone.path) then
        && s'.phase.Spooling? && s' == s.(phase := s'.phase, used := s.used + {id})
        && s'.phase.event == ChangeEvent(id, Deleted, Transition(s.host, gone.path, s.store.current[gone.path], "",
                                                                 gone.minute))
      else s' == s
  {
  }

  /** Any other event ends the agent if the file cannot be read or is over 5 MiB, and is reported if and only if
      the file is there with a hash that is not the stored one: from the stored hash if its content can be read,
      and from none otherwise. The contents to diff are those of the two hashes. */
  lemma ChangeReportedIffNewHash(s: System, file: FileEvent, state: FileState, readable: bool, id: I.EventId)
    requires s.phase.Idle? && file.kind != Deleted && id !in s.used && (state.Content? ==> state.hash != "")
    ensures
      var s' := Do(s, Take(file, state, readable, id));
      if state.Missing? then s' == s
      else if state.Unreadable? || |state.data| > 5_242_880 then s' == s.(phase := Down)
      else if file.path in s.store.current && s.store.current[file.path] == state.hash then s' == s
      else
        var previous := if HasPrevious(s, file.path, readable) then s.store.current[file.path] else "";
        && s'.phase.Spooling? && s' == s.(phase := s'.phase, used := s.used + {id})
        && s'.phase.event == ChangeEvent(id, file.kind, Transition(s.host, file.path, previous, state.hash,
                                                                   file.minute))
        && (s'.phase.decision.Changed? <==> previous != "")
        && (s'.phase.decision.Changed? ==> s'.phase.decision.previousData == s.store.contents[previous])
        && !s'.phase.decision.FileDeleted? && s'.phase.decision.data == state.data
  {
  }

  // ----- what is left of it on the disk ----------------------------------------------------------------

  predicate EntryWritten(w: World) {
    w.appending.dirReadable && w.appending.fileWritten
  }

  predicate Appended(w: World) {
    EntryWritten(w) && w.appending.indexWritten
  }

  /** The agent sees that the control plane has the event. */
  predicate Acknowledged(server: I.Server, event: ChangeEvent, w: World) {
    w.call.reached
    && I.PublishSucceeds(I.IngestOnce(server, BodyOf(event), w.call.c).1, w.call.replyLost, w.call.parses)
  }

  /** Both writes that mark the event worked. */
  predicate MarkWorked(w: World) {
    w.marking.indexWritten && FileRewritten(w.marking)
  }

  /** The agent goes on after the delivery: the event was acknowledged, or the failure could be counted. */
  predicate GoesOn(server: I.Server, event: ChangeEvent, w: World) {
    Acknowledged(server, event, w) || FileRewritten(w.counting)
  }

  lemma SpoolStage(s: System, w: World)
    requires s.phase.Spooling?
    ensures
      var s', event, d := Run(s, SpoolSteps(w.now, w.appending)), s.phase.event, s.phase.decision;
      && s'.phase == (if Appended(w) then Publishing(event, Handled(d)) else Idle)
      && s'.store == s.store && s'.server == s.server
      && s'.spool.files == (if EntryWritten(w) then
                              s.spool.files[event.id := SpoolEntry(event, Pending, w.now, 0, None)]
                            else s.spool.files)
  {
    RunTwo(s, SpoolSteps(w.now, w.appending)[0], IndexStep(w.appending));
  }

  lemma MarkStage(s: System, io: SpoolIo)
    requires s.phase.Confirming? && s.phase.next.Handled? && s.phase.event.id in s.spool.files
    ensures
      var s', event, d := Do(Do(s, IndexStep(io)), StatusStep(io)), s.phase.event, s.phase.next.decision;
      && s'.phase == (if CurrentOf(d) == "" then Idle else Keeping(event, d))
      && s'.store == s.store && s'.server == s.server
      && s'.spool.files == (if io.indexWritten && FileRewritten(io) then
                              s.spool.files[event.id := s.spool.files[event.id].(status := Delivered)]
                            else s.spool.files)
  {
  }

  lemma SentStage(s: System, w: World)
    requires s.phase.Publishing? && s.phase.next.Handled? && s.phase.event.id in s.spool.files
    requires Acknowledged(s.server, s.phase.event, w)
    ensures
      var s', event, d := Run(s, PublishSteps(w.call, w.marking)), s.phase.event, s.phase.next.decision;
      && s'.phase == (if CurrentOf(d) == "" then Idle else Keeping(event, d)) && s'.store == s.store
      && s'.server == I.IngestOnce(s.server, BodyOf(event), w.call.c).0
      && s'.spool.files == (if MarkWorked(w) then
                              s.spool.files[event.id := s.spool.files[event.id].(status := Delivered)]
                            else s.spool.files)
  {
    var send := PublishSteps(w.call, w.marking)[0];
    RunThree(s, send, IndexStep(w.marking), StatusStep(w.marking));
    assert Do(s, send).phase == Confirming(s.phase.event, s.phase.next);
    MarkStage(Do(s, send), w.marking);
  }

  lemma UnsentStage(s: System, w: World)
    requires s.phase.Publishing? && s.phase.next.Handled? && !Acknowledged(s.server, s.phase.event, w)
    ensures
      var s', event, d := Run(s, PublishSteps(w.call, w.marking)), s.phase.event, s.phase.next.decision;
      && s'.phase == Retrying(event, d) && s'.store == s.store && s'.spool == s.spool
      && s'.server == (if w.call.reached then I.IngestOnce(s.server, BodyOf(event), w.call.c).0 else s.server)
  {
    RunThree(s, PublishSteps(w.call, w.marking)[0], IndexStep(w.marking), StatusStep(w.marking));
  }

  lemma CountStage(s: System, w: World)
    requires s.phase.Retrying? && s.phase.event.id in s.spool.files && s.spool.files[s.phase.event.id].attempts == 0
    ensures
      var s', event, d := Run(s, RetrySteps(w.now, w.counting, w.failing)), s.phase.event, s.phase.decision;
      && s'.phase == (if !FileRewritten(w.counting) then Down else if CurrentOf(d) == "" then Idle
                      else Keeping(event, d))
      && s'.store == s.store && s'.server == s.server
      && s'.spool.files == (if FileRewritten(w.counting) then
                              s.spool.files[event.id := s.spool.files[event.id].(attempts := 1,
                                                                                 lastAttemptAt := Some(w.now))]
                            else s.spool.files)
  {
    RunThree(s, RetrySteps(w.now, w.counting, w.failing)[0], IndexStep(w.failing), StatusStep(w.failing));
  }

  lemma HashStage(s: System, w: World)
    requires s.phase.Keeping? && (s.phase.decision.Changed? || s.phase.decision.FileCreated?)
    ensures
      var s', path, hash := Run(s, HashSteps(w.written, w.noted, w.saves)), s.phase.event.transition.path,
                            s.phase.decision.current;
      && s'.phase.Idle? && s'.spool == s.spool && s'.server == s.server
      && s'.store.current == s.store.current[path := hash]
      && s'.store.contents == (if w.written then s.store.contents[hash := s.phase.decision.data] else s.store.contents)
      && s'.store.saved == (if w.saves then s'.store.current
                            else if w.written && w.noted then s.store.current else s.store.saved)
  {
    RunTwo(s, KeepContent(w.written, w.noted), SetCurrent(w.saves));
  }

  // ----- the whole event --------------------------------------------------------------------------------

  /** The spool file of the event, after everything. */
  function EntryLeft(server: I.Server, event: ChangeEvent, w: World): SpoolEntry {
    var sent := Appended(w) && Acknowledged(server, event, w);
    var counted := Appended(w) && !sent && FileRewritten(w.counting);
    SpoolEntry(event, if sent && MarkWorked(w) then Delivered else Pending, w.now, if counted then 1 else 0,
               if counted then Some(w.now) else None)
  }

  /** The state after an event was reported, apart from the hash of its file. */
  predicate Settles(s: System, s': System, event: ChangeEvent, w: World) {
    && s'.phase == (if Appended(w) && !GoesOn(s.server, event, w) then Down else Idle)
    && s'.server == (if Appended(w) && w.call.reached then I.IngestOnce(s.server, BodyOf(event), w.call.c).0
                     else s.server)
    && s'.spool.files == (if EntryWritten(w) then s.spool.files[event.id := EntryLeft(s.server, event, w)]
                          else s.spool.files)
  }

  /** The new content and the new hash of the file are in the store, as far as the writes worked. */
  predicate Advanced(s: Store, s': Store, path: string, hash: string, data: Bytes, w: World) {
    && s'.current == s.current[path := hash]
    && s'.contents == (if w.written then s.contents[hash := data] else s.contents)
    && s'.saved == (if w.saves then s.current[path := hash]
                    else if w.written && w.noted then s.current else s.saved)
  }

  function Taken(s: System, file: FileEvent, w: World): System {
    Do(s, Take(file, w.state, w.readable, w.id))
  }

  /** The event that is reported carries what its decision says. */
  predicate Carries(s: System, file: FileEvent, w: World)
    requires s.phase.Spooling?
  {
    var event, d := s.phase.event, s.phase.decision;
    && event.id == w.id && event.transition.path == file.path && event.transition.current == CurrentOf(d)
    && (CurrentOf(d) != "" ==> (d.Changed? || d.FileCreated?) && w.state.Content? && d.data == w.state.data)
  }

  lemma TakenCarries(s: System, file: FileEvent, w: World)
    requires s.phase.Idle? && w.id !in s.used && (w.state.Content? ==> w.state.hash != "")
    requires Taken(s, file, w).phase.Spooling?
    ensures Carries(Taken(s, file, w), file, w)
    ensures Taken(s, file, w) == s.(phase := Taken(s, file, w).phase, used := s.used + {w.id})
  {
  }

  /** The end of an event whose delivery is over. */
  lemma EndStage(s: System, event: ChangeEvent, d: Decision, w: World)
    requires s.phase == (if CurrentOf(d) == "" then Idle else Keeping(event, d))
    requires CurrentOf(d) != "" ==> d.Changed? || d.FileCreated?
    ensures
      var s' := Run(s, HashSteps(w.written, w.noted, w.saves));
      && s'.phase.Idle? && s'.spool == s.spool && s'.server == s.server
      && (if CurrentOf(d) == "" then s'.store == s.store
          else Advanced(s.store, s'.store, event.transition.path, CurrentOf(d), d.data, w))
  {
    if CurrentOf(d) == "" {
      QuietHash(s, w.written, w.noted, w.saves);
    } else {
      HashStage(s, w);
    }
  }

  /** The steps after the append, when it worked. */
  lemma DeliveryStage(s: System, w: World)
    requires s.phase.Publishing? && s.phase.next.Handled? && s.phase.event.id in s.spool.files
    requires s.spool.files[s.phase.event.id] == SpoolEntry(s.phase.event, Pending, w.now, 0, None) && Appended(w)
    requires CurrentOf(s.phase.next.decision) != "" ==>
               s.phase.next.decision.Changed? || s.phase.next.decision.FileCreated?
    ensures
      var s', event, d := AfterDelivery(s, w), s.phase.event, s.phase.next.decision;
      && s'.phase == (if GoesOn(s.server, event, w) then Idle else Down)
      && s'.server == (if w.call.reached then I.IngestOnce(s.server, BodyOf(event), w.call.c).0 else s.server)
      && s'.spool.files == s.spool.files[event.id := EntryLeft(s.server, event, w)]
      && (if CurrentOf(d) != "" && GoesOn(s.server, event, w) then
            Advanced(s.store, s'.store, event.transition.path, CurrentOf(d), d.data, w)
          else s'.store == s.store)
  {
    var event, d := s.phase.event, s.phase.next.decision;
    var s1 := Run(s, PublishSteps(w.call, w.marking));
    var s2 := Run(s1, RetrySteps(w.now, w.counting, w.failing));
    if Acknowledged(s.server, event, w) {
      SentStage(s, w);
      QuietRetry(s1, w.now, w.counting, w.failing);
      EndStage(s2, event, d, w);
    } else {
      UnsentStage(s, w);
      CountStage(s1, w);
      if FileRewritten(w.counting) {
        EndStage(s2, event, d, w);
      } else {
        QuietHash(s2, w.written, w.noted, w.saves);
      }
    }
  }

  /** What is left of a reported event, whatever fails: its spool file with the outcome of its delivery, what
      its post did to the control plane, and the new hash of its file if and only if the append worked and the
      delivery did not end the agent. A deletion sets no hash. */
  lemma ReportedEventIsHandled(s: System, file: FileEvent, w: World)
    requires s.phase.Idle? && w.id !in s.used && (w.state.Content? ==> w.state.hash != "")
    requires Taken(s, file, w).phase.Spooling?
    ensures
      var event, s' := Taken(s, file, w).phase.event, Run(s, EventSteps(file, w));
      && Settles(s, s', event, w)
      && (if event.transition.current != "" && Appended(w) && GoesOn(s.server, event, w) then
            w.state.Content? && Advanced(s.store, s'.store, file.path, event.transition.current, w.state.data, w)
          else s'.store == s.store)
  {
    var s0 := Taken(s, file, w);
    var s1 := Run(s0, SpoolSteps(w.now, w.appending));
    TakenCarries(s, file, w);
    SplitSteps(s, file, w);
    SpoolStage(s0, w);
    if Appended(w) {
      DeliveryStage(s1, w);
    } else {
      QuietDelivery(s1, w);
    }
  }

  /** A deletion of a file with a stored hash, with a working append: the spool holds its entry, delivered if
      and only if the control plane acknowledged it and both marks were written; nothing else of the spool
      changes, and the store stays as it was. */
  lemma DeletionIsSpooled(s: System, gone: FileEvent, w: World)
    requires s.phase.Idle? && gone.kind == Deleted && w.id !in s.used && (w.state.Content? ==> w.state.hash != "")
    requires Tracked(s, gone.path) && Appended(w)
    ensures
      var s', hash := Run(s, EventSteps(gone, w)), s.store.current[gone.path];
      && w.id in s'.spool.files && s'.spool.files == s.spool.files[w.id := s'.spool.files[w.id]]
      && (var entry := s'.spool.files[w.id];
          && entry.event == ChangeEvent(w.id, Deleted, Transition(s.host, gone.path, hash, "", gone.minute))
          && entry.createdAt == w.now
          && (entry.status == Delivered <==> Acknowledged(s.server, entry.event, w) && MarkWorked(w))
          && (entry.status != Delivered ==> entry.status == Pending))
      && s'.store == s.store
  {
    DeletionReportedIffTracked(s, gone, w.state, w.readable, w.id);
    ReportedEventIsHandled(s, gone, w);
  }

  /** A new content of a file, with a working append and a delivery that does not end the agent: the spool holds
      the transition from the stored hash to the new one, and the new hash is the stored one from then on. */
  lemma ChangeAdvancesTheHash(s: System, file: FileEvent, w: World)
    requires s.phase.Idle? && file.kind != Deleted && w.id !in s.used
    requires w.state.Content? && w.state.hash != "" && |w.state.data| <= 5_242_880
    requires !(file.path in s.store.current && s.store.current[file.path] == w.state.hash) && Appended(w)
    ensures
      var s' := Run(s, EventSteps(file, w));
      var previous := if HasPrevious(s, file.path, w.readable) then s.store.current[file.path] else "";
      var event := ChangeEvent(w.id, file.kind, Transition(s.host, file.path, previous, w.state.hash, file.minute));
      && w.id in s'.spool.files && s'.spool.files[w.id].event == event
      && (if GoesOn(s.server, event, w) then Advanced(s.store, s'.store, file.path, w.state.hash, w.state.data, w)
          else s'.phase.Down? && s'.store == s.store)
  {
    ChangeReportedIffNewHash(s, file, w.state, w.readable, w.id);
    ReportedEventIsHandled(s, file, w);
  }

  /** The new hash survives a crash after the event if and only if the delivery did not end the agent and the
      hash could be saved; otherwise the restarted agent has an older one. */
  lemma HashSurvivesCrashIffSaved(s: System, file: FileEvent, w: World, event: ChangeEvent)
    requires s.phase.Idle? && file.kind != Deleted && w.id !in s.used
    requires w.state.Content? && w.state.hash != "" && |w.state.data| <= 5_242_880
    requires !(file.path in s.store.current && s.store.current[file.path] == w.state.hash)
    requires !(file.path in s.store.saved && s.store.saved[file.path] == w.state.hash)
    requires event == Taken(s, file, w).phase.event
    ensures
      var s' := Run(Run(s, EventSteps(file, w)), [Crash, Start]);
      && s'.phase.Boot?
      && (file.path in s'.store.current && s'.store.current[file.path] == w.state.hash
          <==> Appended(w) && GoesOn(s.server, event, w) && w.saves)
  {
    ChangeReportedIffNewHash(s, file, w.state, w.readable, w.id);
    ReportedEventIsHandled(s, file, w);
    RunTwo(Run(s, EventSteps(file, w)), Crash, Start);
  }

  /** The name that the control plane gets for a kind. */
  predicate NamesKind(name: string, kind: ChangeKind) {
    match kind
    case Created => name == "created"
    case Modified => name == "modified"
    case Deleted => name == "deleted"
    case MetadataOnly => name == "metadata_only"
    case PermissionChanged => name == "permission_changed"
    case InitialSnapshot => name == "initial_snapshot"
  }

  lemma BodyHolds(event: ChangeEvent)
    ensures
      var body, t := BodyOf(event), event.transition;
      && body.event.Some? && body.event.value.id == Some(event.id) && body.event.value.host == t.host
      && body.event.value.path == t.path && NamesKind(body.event.value.kind, event.kind)
      && body.event.value.key == t.host + ":" + t.path + ":" + t.previous + ":" + t.current + ":" + t.minute
  {
  }

  lemma TakenIsOfFile(s: System, file: FileEvent, w: World)
    requires s.phase.Idle? && w.id !in s.used && (w.state.Content? ==> w.state.hash != "")
    requires Taken(s, file, w).phase.Spooling?
    ensures
      var event := Taken(s, file, w).phase.event;
      && event.id == w.id && event.kind == file.kind && event.transition.host == s.host
      && event.transition.path == file.path && event.transition.minute == file.minute
  {
  }

  /** An accepted post of an event adds its row and its message. */
  lemma AcceptedPost(server: I.Server, event: ChangeEvent, c: I.Conditions)
    requires I.IngestOnce(server, BodyOf(event), c).1.Accepted?
    ensures
      var t, s' := event.transition, I.IngestOnce(server, BodyOf(event), c).0;
      && |s'.rows| == |server.rows| + 1 && |s'.sent| == |server.sent| + 1
      && (var row := s'.rows[|server.rows|];
          && row.id == event.id && row.host == t.host && row.path == t.path && NamesKind(row.kind, event.kind)
          && row.key == t.host + ":" + t.path + ":" + t.previous + ":" + t.current + ":" + t.minute)
      && (var m := s'.sent[|server.sent|];
          m.id == event.id && m.host == t.host && m.path == t.path && NamesKind(m.kind, event.kind))
  {
    var body := BodyOf(event);
    BodyHolds(event);
    IO.RowAddedIff(server, body, c);
    IO.StatusIff(server, body, c);
    IO.RowHoldsTheEvent(server, body, c);
    IO.AcceptedEventIsBroadcast(server, body, c);
  }

  /** An accepted event is on the control plane and on its screens with the agent's host, the file's path, the
      name of its kind and the key made of its transition. */
  lemma AcceptedEventIsShown(s: System, file: FileEvent, w: World)
    requires s.phase.Idle? && w.id !in s.used && (w.state.Content? ==> w.state.hash != "")
    requires Taken(s, file, w).phase.Spooling? && Appended(w) && w.call.reached
    requires I.IngestOnce(s.server, BodyOf(Taken(s, file, w).phase.event), w.call.c).1.Accepted?
    ensures
      var t, s' := Taken(s, file, w).phase.event.transition, Run(s, EventSteps(file, w)).server;
      && |s'.rows| == |s.server.rows| + 1 && |s'.sent| == |s.server.sent| + 1
      && (var row := s'.rows[|s.server.rows|];
          && row.id == w.id && row.host == s.host && row.path == file.path && NamesKind(row.kind, file.kind)
          && row.key == s.host + ":" + file.path + ":" + t.previous + ":" + t.current + ":" + file.minute)
      && (var m := s'.sent[|s.server.sent|];
          m.id == w.id && m.host == s.host && m.path == file.path && NamesKind(m.kind, file.kind))
  {
    TakenIsOfFile(s, file, w);
    ReportedEventIsHandled(s, file, w);
    AcceptedPost(s.server, Taken(s, file, w).phase.event, w.call.c);
  }

  lemma CountedTry(s: System, event: ChangeEvent, d: Decision, now: int)
    requires s.phase == Retrying(event, d) && event.id in s.spool.files
    ensures
      var s' := Do(s, Count(true, now));
      && s'.spool.files == s.spool.files[event.id := s'.spool.files[event.id]]
      && s'.spool.files[event.id] == s.spool.files[event.id].(attempts := s.spool.files[event.id].attempts + 1,
                                                             lastAttemptAt := Some(now))
      && (if s.spool.files[event.id].attempts >= 4 then s'.phase == Failing(event, d)
          else s'.phase.Idle? || s'.phase.Keeping?)
  {
  }

  /** The steps after a counted try. */
  lemma FailedForGood(s: System, io: SpoolIo)
    requires s.phase.Failing? || s.phase.Idle? || s.phase.Keeping?
    requires s.phase.Failing? ==> s.phase.event.id in s.spool.files
    ensures
      var s' := Do(Do(s, IndexStep(io)), StatusStep(io));
      && s'.spool.files == (if s.phase.Failing? && io.indexWritten && FileRewritten(io) then
                              s.spool.files[s.phase.event.id := s.spool.files[s.phase.event.id].(
                                status := FailedPermanently("max retries exceeded"))]
                            else s.spool.files)
      && (s'.phase.Idle? || s'.phase.Keeping?)
  {
  }

  lemma UncountedTry(s: System, now: int, io: SpoolIo)
    requires s.phase.Retrying? && s.phase.event.id in s.spool.files
    ensures Do(Do(Do(s, Count(false, now)), IndexStep(io)), StatusStep(io)) == s.(phase := Down)
  {
  }

  /** A counted failure adds one attempt, and from the fifth on the event fails for good, as far as that can be
      written; the failure that cannot be counted ends the agent. */
  lemma FailsFromTheFifth(s: System, w: World)
    requires s.phase.Retrying? && s.phase.event.id in s.spool.files
    ensures
      var s', id := Run(s, RetrySteps(w.now, w.counting, w.failing)), s.phase.event.id;
      var entry := s.spool.files[id];
      if !FileRewritten(w.counting) then s'.phase.Down? && s'.spool == s.spool
      else
        && s'.spool.files == s.spool.files[id := entry.(
             attempts := entry.attempts + 1, lastAttemptAt := Some(w.now),
             status := if entry.attempts + 1 >= 5 && w.failing.indexWritten && FileRewritten(w.failing) then
                         FailedPermanently("max retries exceeded")
                       else entry.status)]
        && (s'.phase.Idle? || s'.phase.Keeping?)
  {
    RunThree(s, Count(FileRewritten(w.counting), w.now), IndexStep(w.failing), StatusStep(w.failing));
    if FileRewritten(w.counting) {
      CountedTry(s, s.phase.event, s.phase.decision, w.now);
      FailedForGood(Do(s, Count(true, w.now)), w.failing);
    } else {
      UncountedTry(s, w.now, w.failing);
    }
  }
}
