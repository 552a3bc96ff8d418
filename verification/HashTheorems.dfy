/** How the stored hash of a file follows the events in the spool. */
module HashTheorems {
  import opened Options
  import I = Ingest
  import opened Spool
  import opened Snapshots
  import opened Delivery
  import opened DeliveryTheorems

  // ----- a hash is stored only after its event is spooled --------------------------------------------

  predicate SpooledTo(files: map<I.EventId, SpoolEntry>, path: string, hash: string) {
    exists id :: id in files && files[id].event.transition.path == path && files[id].event.transition.current == hash
  }

  predicate Known(s: System, path: string, hash: string) {
    (path, hash) in s.baselines || SpooledTo(s.spool.files, path, hash)
  }

  predicate AllKnown(s: System, hashes: map<string, string>) {
    forall path :: path in hashes ==> Known(s, path, hashes[path])
  }

  predicate EventsStay(a: map<I.EventId, SpoolEntry>, b: map<I.EventId, SpoolEntry>) {
    forall id :: id in a ==> id in b && b[id].event == a[id].event
  }

  lemma StepsThatWriteNoEntry(s: System, a: Action)
    requires !a.WriteEntryFile? && !a.WriteStatusFile? && !a.Count?
    ensures Do(s, a).spool.files == s.spool.files && s.baselines <= Do(s, a).baselines
  {
  }

  lemma StepKeepsEvents(s: System, a: Action)
    requires Safe(s)
    ensures EventsStay(s.spool.files, Do(s, a).spool.files) && s.baselines <= Do(s, a).baselines
  {
    if !a.WriteEntryFile? && !a.WriteStatusFile? && !a.Count? {
      StepsThatWriteNoEntry(s, a);
    }
  }

  lemma GrowthKeepsKnown(s: System, s': System, hashes: map<string, string>)
    requires EventsStay(s.spool.files, s'.spool.files) && s.baselines <= s'.baselines && AllKnown(s, hashes)
    ensures AllKnown(s', hashes)
  {
    forall path | path in hashes ensures Known(s', path, hashes[path]) {
      if (path, hashes[path]) !in s.baselines {
        var id :| id in s.spool.files && s.spool.files[id].event.transition.path == path
                  && s.spool.files[id].event.transition.current == hashes[path];
        assert id in s'.spool.files;
      }
    }
  }

  predicate HashesKnown(s: System) {
    AllKnown(s, s.store.current) && AllKnown(s, s.store.saved)
  }

  /** Every other step leaves the hashes as they are, or saves them. */
  lemma StepsThatSetHashes(s: System, a: Action)
    requires !a.Start? && !a.Baseline? && !a.SetCurrent?
    ensures Do(s, a).store.current == s.store.current
    ensures Do(s, a).store.saved == s.store.saved || Do(s, a).store.saved == s.store.current
  {
  }

  lemma BaselineKnown(s: System, path: string, data: Bytes, hash: string, written: bool, noted: bool, saved: bool)
    requires HashesKnown(s)
    ensures HashesKnown(TakeBaseline(s, path, data, hash, written, noted, saved))
  {
    var s' := TakeBaseline(s, path, data, hash, written, noted, saved);
    GrowthKeepsKnown(s, s', s.store.current);
    GrowthKeepsKnown(s, s', s.store.saved);
  }

  lemma SetKnown(s: System, saves: bool)
    requires Safe(s) && HashesKnown(s) && s.phase.Setting?
    ensures HashesKnown(SetFileHash(s, s.phase.event, s.phase.decision, saves))
  {
    var s' := SetFileHash(s, s.phase.event, s.phase.decision, saves);
    GrowthKeepsKnown(s, s', s.store.current);
    GrowthKeepsKnown(s, s', s.store.saved);
    assert SpooledTo(s.spool.files, s.phase.event.transition.path, CurrentOf(s.phase.decision)) by {
      assert s.phase.event.id in s.spool.files;
    }
  }

  lemma StepKeepsHashesKnown(s: System, a: Action)
    requires Safe(s) && HashesKnown(s)
    ensures HashesKnown(Do(s, a))
  {
    if a.Baseline? {
      if s.phase.Boot? {
        BaselineKnown(s, a.path, a.data, a.hash, a.written, a.noted, a.saved);
      }
    } else if a.SetCurrent? {
      if s.phase.Setting? {
        SetKnown(s, a.saves);
      }
    } else if a.Start? {
      GrowthKeepsKnown(s, Do(s, a), s.store.saved);
    } else {
      StepKeepsEvents(s, a);
      StepsThatSetHashes(s, a);
      GrowthKeepsKnown(s, Do(s, a), s.store.current);
      GrowthKeepsKnown(s, Do(s, a), s.store.saved);
    }
  }

  /** In every state the agent can reach, the hash stored for a file is that of a baseline or the current
      hash of an event on that file in the spool; so is the one saved for the next start. */
  lemma {:induction false} HashesAreSpooledFirst(s: System, actions: seq<Action>)
    requires Safe(s) && HashesKnown(s)
    ensures HashesKnown(Run(s, actions))
    decreases |actions|
  {
    if actions != [] {
      StepKeepsHashesKnown(s, actions[0]);
      StepKeepsSafe(s, actions[0]);
      HashesAreSpooledFirst(Do(s, actions[0]), actions[1..]);
    }
  }

  // ----- the events of a main loop are its new files -------------------------------------------------

  function Ids(events: seq<ChangeEvent>): set<I.EventId> {
    set k | 0 <= k < |events| :: events[k].id
  }

  predicate DistinctIds(events: seq<ChangeEvent>) {
    forall i, j :: 0 <= i < j < |events| ==> events[i].id != events[j].id
  }

  predicate AllLive(files: map<I.EventId, SpoolEntry>, events: seq<ChangeEvent>) {
    forall k :: 0 <= k < |events| ==> Live(files, events[k])
  }

  /** The spool files are those that were there when the main loop started and one for each event since. */
  predicate EventsAreNewFiles(s: System) {
    && s.spool.files.Keys == s.earlier + Ids(s.events) && s.earlier !! Ids(s.events)
    && DistinctIds(s.events) && AllLive(s.spool.files, s.events)
  }

  lemma RewritesAddNoFile(s: System, a: Action)
    requires a.WriteStatusFile? || a.Count?
    ensures Do(s, a).spool.files.Keys == s.spool.files.Keys
  {
  }

  lemma RecordStays(s: System, a: Action)
    requires !a.WriteEntryFile? && !a.NextEntry?
    ensures Do(s, a).earlier == s.earlier && Do(s, a).events == s.events
  {
  }

  lemma EntryKeepsNewFiles(s: System, now: int)
    requires Safe(s) && EventsAreNewFiles(s) && s.phase.Spooling?
    ensures EventsAreNewFiles(SpoolEntryFile(s, s.phase.event, s.phase.decision, true, now))
  {
    var event := s.phase.event;
    var events := s.events + [event];
    assert Ids(events) == Ids(s.events) + {event.id} by {
      forall id | id in Ids(s.events) ensures id in Ids(events) {
        var k :| 0 <= k < |s.events| && s.events[k].id == id;
        assert events[k].id == id;
      }
      assert events[|s.events|].id == event.id;
    }
    forall k | 0 <= k < |s.events| ensures s.events[k].id != event.id {
      assert s.events[k].id in Ids(s.events);
    }
  }

  lemma StepKeepsNewFiles(s: System, a: Action)
    requires Safe(s) && EventsAreNewFiles(s)
    ensures EventsAreNewFiles(Do(s, a))
  {
    match a {
      case WriteEntryFile(ok, now) =>
        if s.phase.Spooling? && ok {
          EntryKeepsNewFiles(s, now);
        }
      case NextEntry =>
      case _ =>
        if a.WriteStatusFile? || a.Count? {
          RewritesAddNoFile(s, a);
        } else {
          StepsThatWriteNoEntry(s, a);
        }
        RecordStays(s, a);
        StepKeepsEvents(s, a);
        assert AllLive(Do(s, a).spool.files, s.events);
    }
  }

  /** Over every run, whatever fails and wherever it crashes: the files written since the main loop started
      are one for each recorded event, and hold it. */
  lemma {:induction false} EventsAreTheNewFiles(s: System, actions: seq<Action>)
    requires Safe(s) && EventsAreNewFiles(s)
    ensures EventsAreNewFiles(Run(s, actions))
    decreases |actions|
  {
    if actions != [] {
      StepKeepsNewFiles(s, actions[0]);
      StepKeepsSafe(s, actions[0]);
      EventsAreTheNewFiles(Do(s, actions[0]), actions[1..]);
    }
  }

  // ----- contents that are kept ----------------------------------------------------------------------

  predicate Present(hashes: map<string, string>, contents: map<string, Bytes>) {
    forall path :: path in hashes ==> hashes[path] in contents
  }

  /** Content is kept and can be read. */
  predicate Gentle(a: Action) {
    && !a.Evict? && (a.KeepContent? ==> a.written) && (a.Take? ==> a.readable)
  }

  predicate AllGentle(actions: seq<Action>) {
    actions == [] || (Gentle(actions[0]) && AllGentle(actions[1..]))
  }

  /** The content of every stored hash is there. */
  predicate ContentsKept(s: System) {
    && Present(s.store.current, s.store.contents) && Present(s.store.saved, s.store.contents)
    && (s.phase.Setting? ==> CurrentOf(s.phase.decision) in s.store.contents)
  }

  lemma DeliveringKeepsContents(s: System, a: Action)
    requires ContentsKept(s) && Delivering(a)
    ensures ContentsKept(Do(s, a))
  {
  }

  lemma OthersKeepContents(s: System, a: Action)
    requires ContentsKept(s) && Gentle(a) && !Delivering(a)
    ensures ContentsKept(Do(s, a))
  {
  }

  lemma StepKeepsContents(s: System, a: Action)
    requires ContentsKept(s) && Gentle(a)
    ensures ContentsKept(Do(s, a))
  {
    if Delivering(a) {
      DeliveringKeepsContents(s, a);
    } else {
      OthersKeepContents(s, a);
    }
  }

  // ----- folding the events gives the hashes ----------------------------------------------------------

  function Follow(hashes: map<string, string>, event: ChangeEvent): map<string, string> {
    if event.transition.current == "" then hashes else hashes[event.transition.path := event.transition.current]
  }

  function Fold(origin: map<string, string>, events: seq<ChangeEvent>): map<string, string> {
    if events == [] then origin else Follow(Fold(origin, events[..|events| - 1]), events[|events| - 1])
  }

  function HashIn(hashes: map<string, string>, path: string): string {
    if path in hashes then hashes[path] else ""
  }

  /** The event starts from the stored hash. If the content of that hash cannot be read, a change is
      reported as a creation instead; `strict` rules that out. */
  predicate Continues(hashes: map<string, string>, event: ChangeEvent, strict: bool) {
    event.transition.previous == HashIn(hashes, event.transition.path)
    || (!strict && event.transition.previous == "" && event.transition.current != "")
  }

  predicate Chained(origin: map<string, string>, events: seq<ChangeEvent>, strict: bool) {
    events == [] ||
    (Chained(origin, events[..|events| - 1], strict)
     && Continues(Fold(origin, events[..|events| - 1]), events[|events| - 1], strict))
  }

  predicate OnlyDeletions(events: seq<ChangeEvent>) {
    forall k :: 0 <= k < |events| ==> events[k].transition.current == ""
  }

  predicate FoldsToHashes(s: System, strict: bool) {
    Chained(s.origin, s.events, strict) && Fold(s.origin, s.events) == s.store.current
  }

  predicate Moves(event: ChangeEvent) {
    event.transition.current == "" || event.transition.current != event.transition.previous
  }

  /** The last event is on its way; the hashes are still those before it. */
  predicate AfterSpooled(s: System, event: ChangeEvent, d: Decision, strict: bool) {
    && Chained(s.origin, s.events, strict) && s.events != [] && s.events[|s.events| - 1] == event
    && Built(event, d) && Moves(event) && Fold(s.origin, s.events[..|s.events| - 1]) == s.store.current
  }

  predicate NextFolds(s: System, event: ChangeEvent, next: Next, strict: bool) {
    next.Handled? ==> AfterSpooled(s, event, next.decision, strict)
  }

  predicate PhaseFolds(s: System, strict: bool) {
    match s.phase
    case Down => true
    case Boot => true
    case Replay(_) => true
    case Idle => FoldsToHashes(s, strict)
    case Spooling(event, d) =>
      FoldsToHashes(s, strict) && Continues(s.store.current, event, strict) && Built(event, d) && Moves(event)
    case Indexing(event, d) => AfterSpooled(s, event, d, strict)
    case Publishing(event, next) => NextFolds(s, event, next, strict)
    case Confirming(event, next) => NextFolds(s, event, next, strict)
    case Recording(event, next) => NextFolds(s, event, next, strict)
    case Retrying(event, d) => AfterSpooled(s, event, d, strict)
    case Failing(event, d) => AfterSpooled(s, event, d, strict)
    case RecordingFailure(event, d) => AfterSpooled(s, event, d, strict)
    case Keeping(event, d) => AfterSpooled(s, event, d, strict) && CurrentOf(d) != ""
    case Setting(event, d) => AfterSpooled(s, event, d, strict) && CurrentOf(d) != ""
  }

  predicate Folds(s: System, strict: bool) {
    OnlyDeletions(s.halved) ==> PhaseFolds(s, strict)
  }

  lemma TakeFolds(s: System, file: FileEvent, state: FileState, readable: bool, id: I.EventId, strict: bool)
    requires Folds(s, strict) && s.phase.Idle? && (strict ==> readable && ContentsKept(s))
    ensures Folds(TakeEvent(s, file, state, readable, id), strict)
  {
  }

  lemma EntryFolds(s: System, ok: bool, now: int, strict: bool)
    requires Folds(s, strict) && s.phase.Spooling?
    ensures Folds(SpoolEntryFile(s, s.phase.event, s.phase.decision, ok, now), strict)
  {
    var events := s.events + [s.phase.event];
    assert events[..|events| - 1] == s.events;
  }

  lemma IndexFolds(s: System, readable: bool, ok: bool, strict: bool)
    requires Folds(s, strict) && s.phase.Indexing?
    ensures Folds(SpoolIndexFile(s, s.phase.event, s.phase.decision, readable, ok), strict)
  {
    if OnlyDeletions(s.halved + [s.phase.event]) {
      assert (s.halved + [s.phase.event])[|s.halved|] == s.phase.event;
      forall k | 0 <= k < |s.halved| ensures s.halved[k].transition.current == "" {
        assert (s.halved + [s.phase.event])[k] == s.halved[k];
      }
    }
  }

  lemma SetFolds(s: System, saves: bool, strict: bool)
    requires Folds(s, strict) && s.phase.Setting?
    ensures Folds(SetFileHash(s, s.phase.event, s.phase.decision, saves), strict)
  {
  }

  lemma PublishFolds(s: System, reached: bool, c: I.Conditions, replyLost: bool, parses: bool, strict: bool)
    requires Folds(s, strict) && s.phase.Publishing?
    ensures Folds(Publish(s, s.phase.event, s.phase.next, reached, c, replyLost, parses), strict)
  {
  }

  lemma ConfirmFolds(s: System, readable: bool, ok: bool, strict: bool)
    requires Folds(s, strict)
    ensures s.phase.Confirming? ==> Folds(ConfirmIndex(s, s.phase.event, s.phase.next, readable, ok), strict)
    ensures s.phase.Recording? ==> Folds(RecordStatus(s, s.phase.event, s.phase.next, ok), strict)
  {
  }

  lemma CountFolds(s: System, ok: bool, now: int, strict: bool)
    requires Folds(s, strict) && s.phase.Retrying?
    ensures Folds(CountTry(s, s.phase.event, s.phase.decision, ok, now), strict)
  {
  }

  lemma FailFolds(s: System, readable: bool, ok: bool, strict: bool)
    requires Folds(s, strict)
    ensures s.phase.Failing? ==> Folds(FailIndex(s, s.phase.event, s.phase.decision, readable, ok), strict)
    ensures s.phase.RecordingFailure? ==> Folds(RecordFailure(s, s.phase.event, s.phase.decision, ok), strict)
  {
  }

  lemma DeliverFolds(s: System, a: Action, strict: bool)
    requires Folds(s, strict) && Delivering(a)
    ensures Folds(Do(s, a), strict)
  {
    match a {
      case Send(reached, c, lost, parses) =>
        if s.phase.Publishing? {
          PublishFolds(s, reached, c, lost, parses, strict);
        }
      case WriteIndexFile(readable, ok) =>
        ConfirmFolds(s, readable, ok, strict);
        FailFolds(s, readable, ok, strict);
        if s.phase.Indexing? {
          IndexFolds(s, readable, ok, strict);
        }
      case WriteStatusFile(ok) =>
        ConfirmFolds(s, true, ok, strict);
        FailFolds(s, true, ok, strict);
      case Count(ok, now) =>
        if s.phase.Retrying? {
          CountFolds(s, ok, now, strict);
        }
    }
  }

  lemma StoreFolds(s: System, a: Action, strict: bool)
    requires Folds(s, strict) && (strict ==> Gentle(a) && ContentsKept(s))
    requires a.WriteEntryFile? || a.KeepContent? || a.SetCurrent? || a.Take?
    ensures Folds(Do(s, a), strict)
  {
    if a.SetCurrent? && s.phase.Setting? {
      SetFolds(s, a.saves, strict);
    } else if a.WriteEntryFile? && s.phase.Spooling? {
      EntryFolds(s, a.ok, a.now, strict);
    } else if a.Take? && s.phase.Idle? {
      TakeFolds(s, a.file, a.state, a.readable, a.id, strict);
    }
  }

  lemma StepFolds(s: System, a: Action, strict: bool)
    requires Folds(s, strict) && (strict ==> Gentle(a) && ContentsKept(s))
    ensures Folds(Do(s, a), strict)
  {
    if Delivering(a) {
      DeliverFolds(s, a, strict);
    } else if a.WriteEntryFile? || a.KeepContent? || a.SetCurrent? || a.Take? {
      StoreFolds(s, a, strict);
    }
  }

  /** Over every run, crashes included: between two events, folding the events spooled since the main loop
      started gives exactly the stored hashes, and each event starts where the one before it on its file
      ended, unless the append of a change failed after its file was written. A deletion changes no hash.
      Only an unreadable content file breaks a link, and none does when contents are kept and can be read. */
  lemma {:induction false} SpooledEventsFoldToTheHashes(s: System, actions: seq<Action>, strict: bool)
    requires Folds(s, strict) && (strict ==> AllGentle(actions) && ContentsKept(s))
    ensures Folds(Run(s, actions), strict)
    ensures Run(s, actions).phase.Idle? && OnlyDeletions(Run(s, actions).halved) ==>
              FoldsToHashes(Run(s, actions), strict)
    decreases |actions|
  {
    if actions != [] {
      StepFolds(s, actions[0], strict);
      if strict {
        StepKeepsContents(s, actions[0]);
      }
      SpooledEventsFoldToTheHashes(Do(s, actions[0]), actions[1..], strict);
    }
  }

  // ----- an append that fails half way breaks the fold for good -----------------------------------------

  predicate Differs(a: map<string, string>, b: map<string, string>, path: string) {
    HashIn(a, path) != HashIn(b, path)
  }

  /** A link is broken, or the fold has another hash for a file other than `except`. */
  ghost predicate Astray(s: System, except: Option<string>) {
    !Chained(s.origin, s.events, true)
    || exists path :: Some(path) != except && Differs(Fold(s.origin, s.events), s.store.current, path)
  }

  /** The file whose event is on its way from the spool to the stored hash. */
  function Underway(p: Phase): Option<string> {
    match p
    case Down => None
    case Boot => None
    case Replay(_) => None
    case Idle => None
    case Spooling(_, _) => None
    case _ => Some(p.event.transition.path)
  }

  predicate InLoop(p: Phase) {
    match p
    case Down => false
    case Boot => false
    case Replay(_) => false
    case Publishing(_, next) => next.Handled?
    case Confirming(_, next) => next.Handled?
    case Recording(_, next) => next.Handled?
    case _ => true
  }

  ghost predicate PhaseAstray(s: System) {
    && (InLoop(s.phase) ==> Astray(s, Underway(s.phase)))
    && (s.phase.Spooling? ==> Continues(s.store.current, s.phase.event, true))
  }

  ghost predicate AstrayIfHalved(s: System) {
    !OnlyDeletions(s.halved) ==> PhaseAstray(s)
  }

  lemma AstrayFrame(s: System, s': System, a: Option<string>, b: Option<string>)
    requires Astray(s, a) && (b == a || b.None?)
    requires s'.origin == s.origin && s'.events == s.events && s'.store.current == s.store.current
    ensures Astray(s', b)
  {
  }

  lemma EntryAstray(s: System, now: int)
    requires s.phase.Spooling? && Astray(s, None) && Continues(s.store.current, s.phase.event, true)
    ensures Astray(SpoolEntryFile(s, s.phase.event, s.phase.decision, true, now), Some(s.phase.event.transition.path))
  {
    var event := s.phase.event;
    var events := s.events + [event];
    assert events[..|events| - 1] == s.events;
    if Chained(s.origin, events, true) {
      var path :| Differs(Fold(s.origin, s.events), s.store.current, path);
      assert Differs(Fold(s.origin, events), s.store.current, path);
    }
  }

  /** The first append that fails half way: the fold has the new hash, the store the old one. */
  lemma HalfAppendAstray(s: System, readable: bool)
    requires s.phase.Indexing? && AfterSpooled(s, s.phase.event, s.phase.decision, true)
    requires s.phase.event.transition.current != ""
    ensures Astray(SpoolIndexFile(s, s.phase.event, s.phase.decision, readable, false), None)
  {
    assert Differs(Fold(s.origin, s.events), s.store.current, s.phase.event.transition.path);
  }

  lemma SetAstray(s: System, saves: bool)
    requires s.phase.Setting? && Astray(s, Some(s.phase.event.transition.path))
    ensures Astray(SetFileHash(s, s.phase.event, s.phase.decision, saves), None)
  {
    var event := s.phase.event;
    if Chained(s.origin, s.events, true) {
      var path :| Some(path) != Some(event.transition.path) && Differs(Fold(s.origin, s.events), s.store.current, path);
      assert Differs(Fold(s.origin, s.events), SetFileHash(s, event, s.phase.decision, saves).store.current, path);
    }
  }

  lemma IndexAstray(s: System, readable: bool, ok: bool)
    requires AstrayIfHalved(s) && Folds(s, true) && s.phase.Indexing?
    ensures AstrayIfHalved(SpoolIndexFile(s, s.phase.event, s.phase.decision, readable, ok))
  {
    var s' := SpoolIndexFile(s, s.phase.event, s.phase.decision, readable, ok);
    if OnlyDeletions(s.halved) && !OnlyDeletions(s'.halved) {
      HalfAppendAstray(s, readable);
    } else if !OnlyDeletions(s.halved) {
      AstrayFrame(s, s', Some(s.phase.event.transition.path), if ok then Some(s.phase.event.transition.path) else None);
    }
  }

  lemma TakeAstray(s: System, a: Action)
    requires AstrayIfHalved(s) && ContentsKept(s) && Gentle(a) && s.phase.Idle? && a.Take?
    ensures AstrayIfHalved(Do(s, a))
  {
    if !OnlyDeletions(s.halved) {
      AstrayFrame(s, Do(s, a), None, None);
    }
  }

  /** Of the main loop, only the phase moves. */
  predicate OnlyMoves(s: System, s': System) {
    && s'.origin == s.origin && s'.events == s.events && s'.halved == s.halved && s'.store.current == s.store.current
    && (InLoop(s'.phase) ==> InLoop(s.phase) && (Underway(s'.phase) == Underway(s.phase) || Underway(s'.phase) == None))
    && (s'.phase.Spooling? ==> s'.phase == s.phase)
  }

  lemma DeliveryOnlyMoves(s: System, a: Action)
    requires Delivering(a) && !(s.phase.Indexing? && a.WriteIndexFile?)
    ensures OnlyMoves(s, Do(s, a))
  {
  }

  lemma OthersOnlyMove(s: System, a: Action)
    requires !Delivering(a) && !a.Take? && !a.WriteEntryFile? && !a.SetCurrent? && !a.NextEntry? && !a.Start?
             && !a.Baseline?
    ensures OnlyMoves(s, Do(s, a))
  {
  }

  lemma MoveAstray(s: System, s': System)
    requires AstrayIfHalved(s) && OnlyMoves(s, s')
    ensures AstrayIfHalved(s')
  {
    if !OnlyDeletions(s.halved) && InLoop(s'.phase) {
      AstrayFrame(s, s', Underway(s.phase), Underway(s'.phase));
    }
  }

  lemma DeliveryAstray(s: System, a: Action)
    requires AstrayIfHalved(s) && Folds(s, true) && Delivering(a)
    ensures AstrayIfHalved(Do(s, a))
  {
    if a.WriteIndexFile? && s.phase.Indexing? {
      IndexAstray(s, a.readable, a.ok);
    } else {
      DeliveryOnlyMoves(s, a);
      MoveAstray(s, Do(s, a));
    }
  }

  lemma StoreAstray(s: System, a: Action)
    requires AstrayIfHalved(s) && ContentsKept(s) && Gentle(a)
    requires a.WriteEntryFile? || a.SetCurrent? || a.Take?
    ensures AstrayIfHalved(Do(s, a))
  {
    if a.Take? && s.phase.Idle? {
      TakeAstray(s, a);
    } else if a.WriteEntryFile? && s.phase.Spooling? {
      if !OnlyDeletions(s.halved) && a.ok {
        EntryAstray(s, a.now);
      }
    } else if a.SetCurrent? && s.phase.Setting? {
      if !OnlyDeletions(s.halved) {
        SetAstray(s, a.saves);
      }
    }
  }

  lemma StepAstray(s: System, a: Action)
    requires AstrayIfHalved(s) && Folds(s, true) && ContentsKept(s) && Gentle(a)
    ensures AstrayIfHalved(Do(s, a))
  {
    if Delivering(a) {
      DeliveryAstray(s, a);
    } else if a.WriteEntryFile? || a.SetCurrent? || a.Take? {
      StoreAstray(s, a);
    } else if !a.NextEntry? && !a.Start? && !a.Baseline? {
      OthersOnlyMove(s, a);
      MoveAstray(s, Do(s, a));
    }
  }

  /** Over every run in which contents are kept and can be read: between two events the spool folds to the
      stored hashes and its links hold, if and only if since the main loop started no append of a creation
      or a modification failed after its file was written. */
  lemma {:induction false} FoldsIffNoHalfAppend(s: System, actions: seq<Action>)
    requires Folds(s, true) && AstrayIfHalved(s) && ContentsKept(s) && AllGentle(actions)
    ensures
      var s' := Run(s, actions);
      s'.phase.Idle? ==> (FoldsToHashes(s', true) <==> OnlyDeletions(s'.halved))
    decreases |actions|
  {
    if actions != [] {
      StepFolds(s, actions[0], true);
      StepKeepsContents(s, actions[0]);
      StepAstray(s, actions[0]);
      FoldsIffNoHalfAppend(Do(s, actions[0]), actions[1..]);
    }
  }

  function AppendSteps(file: FileEvent, state: FileState, id: I.EventId, now: int, indexed: bool): seq<Action> {
    [Take(file, state, true, id), WriteEntryFile(true, now), WriteIndexFile(true, indexed)]
  }

  /** The state in which the event of this content can be taken. */
  predicate Reportable(s: System, file: FileEvent, state: FileState, id: I.EventId) {
    && s.phase.Idle? && !file.kind.Deleted? && id !in s.used
    && state.Content? && |state.data| <= MAX_FILE_BYTES && state.hash != ""
       && state.hash != StoredHash(s.store, file.path)
  }

  lemma AppendRun(s: System, file: FileEvent, state: FileState, id: I.EventId, now: int, indexed: bool)
    requires Reportable(s, file, state, id)
    ensures
      var s' := Run(s, AppendSteps(file, state, id, now, indexed));
      var decision := SnapshotAcquire(s.store, file, state, true).decision;
      var event := BuildEvent(id, s.host, file, decision);
      && s'.store == s.store && s'.used == s.used + {id} && s'.host == s.host
      && s'.spool.files == s.spool.files[id := NewEntry(event, now)]
      && (!indexed ==> s'.phase.Idle? && s'.halved == s.halved + [event])
  {
    RunThree(s, Take(file, state, true, id), WriteEntryFile(true, now), WriteIndexFile(true, indexed));
  }

  /** The failing run, from every state between two events: two contents of one file are reported, and the
      first append fails after its file was written. Both files wait in the spool, for one path and from
      the same previous hash, so the second does not continue the first. */
  lemma HalfAppendLeavesTwins(s: System, file: FileEvent, first: FileState, second: FileState, id: I.EventId,
                              other: I.EventId, now: int)
    requires Reportable(s, file, first, id) && Reportable(s, file, second, other) && id != other
    ensures
      var steps := AppendSteps(file, first, id, now, false) + AppendSteps(file, second, other, now, true);
      var files := Run(s, steps).spool.files;
      && id in files && files[id].status.Pending? && other in files && files[other].status.Pending?
      && files[id].event.transition.path == files[other].event.transition.path == file.path
      && files[id].event.transition.previous == files[other].event.transition.previous
      && files[id].event.transition.current == first.hash && files[other].event.transition.current == second.hash
      && first.hash != files[other].event.transition.previous
  {
    RunAppend(s, AppendSteps(file, first, id, now, false), AppendSteps(file, second, other, now, true));
    AppendRun(s, file, first, id, now, false);
    AppendRun(Run(s, AppendSteps(file, first, id, now, false)), file, second, other, now, true);
  }

  // ----- all of it --------------------------------------------------------------------------------------

  /** Everything above, from a first start. */
  lemma AgentRunsFromFreshStart(s: System, actions: seq<Action>)
    requires Fresh(s)
    ensures
      var s' := Run(s, actions);
      && Safe(s') && HashesKnown(s') && EventsAreNewFiles(s')
      && (s'.phase.Idle? && OnlyDeletions(s'.halved) ==> FoldsToHashes(s', false))
      && (s'.phase.Idle? && AllGentle(actions) ==> (FoldsToHashes(s', true) <==> OnlyDeletions(s'.halved)))
  {
    RunsAreSafe(s, actions);
    HashesAreSpooledFirst(s, actions);
    EventsAreTheNewFiles(s, actions);
    SpooledEventsFoldToTheHashes(s, actions, false);
    if AllGentle(actions) {
      FoldsIffNoHalfAppend(s, actions);
    }
  }
}
