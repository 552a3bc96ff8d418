/** How the spool's index and its files agree over the runs of the agent. */
module SpoolTheorems {
  import I = Ingest
  import opened Spool
  import opened Delivery
  import opened DeliveryTheorems

  // ----- crashes at any point -------------------------------------------------------------------------

  /** A file that no longer waits has its status in the index too. */
  predicate SettledInIndex(spool: SpoolDisk) {
    forall id :: id in spool.files && !spool.files[id].status.Pending? ==>
      id in spool.index && spool.index[id] == spool.files[id].status
  }

  predicate Settled(s: System) {
    && SettledInIndex(s.spool)
    && (s.phase.Recording? ==> s.phase.event.id in s.spool.index && s.spool.index[s.phase.event.id].Delivered?)
  }

  /** An index write that takes effect: the first write of a mark or the second one of an append. */
  predicate WritesIndex(s: System, a: Action) {
    a.WriteIndexFile? && a.ok && (s.phase.Indexing? || s.phase.Confirming? || s.phase.Failing?)
  }

  predicate OthersWait(spool: SpoolDisk, id: I.EventId) {
    forall other :: other in spool.files && other != id ==> spool.files[other].status.Pending?
  }

  /** An index that cannot be read is written back only while every other event still waits. */
  predicate Harmless(s: System, a: Action) {
    WritesIndex(s, a) && !a.readable ==> OthersWait(s.spool, s.phase.event.id)
  }

  lemma StepsThatLeaveSpool(s: System, a: Action)
    requires !a.WriteEntryFile? && !a.WriteIndexFile? && !a.WriteStatusFile? && !a.Count?
    ensures Do(s, a).spool == s.spool && (Do(s, a).phase.Recording? ==> Do(s, a).phase == s.phase)
  {
  }

  lemma ReadableIndexSettles(s: System, ok: bool)
    requires Safe(s) && Settled(s)
    ensures Settled(Do(s, WriteIndexFile(true, ok)))
  {
  }

  lemma EntryWriteSettles(s: System, a: Action)
    requires Safe(s) && Settled(s) && (a.WriteEntryFile? || a.WriteStatusFile? || a.Count?)
    ensures Settled(Do(s, a))
  {
  }

  /** An index that cannot be read back is replaced by an index with one entry: all others are lost. */
  lemma UnreadableIndexForgets(d: SpoolDisk, id: I.EventId, status: DeliveryStatus)
    requires id in d.files && (d.files[id].status.Pending? || d.files[id].status == status)
    ensures SettledInIndex(WriteIndex(d, id, status, false)) <==> OthersWait(d, id)
  {
    var d' := WriteIndex(d, id, status, false);
    assert d'.files == d.files && d'.index == map[id := status];
    if SettledInIndex(d') {
      forall other | other in d.files && other != id ensures d.files[other].status.Pending? {
        assert other !in d'.index;
      }
    }
  }

  lemma UnreadableIndexSettlesIff(s: System)
    requires Safe(s) && Settled(s) && WritesIndex(s, WriteIndexFile(false, true))
    ensures Settled(Do(s, WriteIndexFile(false, true))) <==> OthersWait(s.spool, s.phase.event.id)
  {
    UnreadableIndexForgets(s.spool, s.phase.event.id, if s.phase.Indexing? then Pending else Delivered);
  }

  /** A step from a settled state leads to a settled state if and only if it is harmless. */
  lemma StepSettlesIffHarmless(s: System, a: Action)
    requires Safe(s) && Settled(s)
    ensures Settled(Do(s, a)) <==> Harmless(s, a)
  {
    if a.WriteIndexFile? {
      if a.readable {
        ReadableIndexSettles(s, a.ok);
      } else if WritesIndex(s, a) {
        UnreadableIndexSettlesIff(s);
      } else {
        IndexNotWritten(s, a);
      }
    } else if a.WriteEntryFile? || a.WriteStatusFile? || a.Count? {
      EntryWriteSettles(s, a);
    } else {
      StepsThatLeaveSpool(s, a);
    }
  }

  lemma IndexNotWritten(s: System, a: Action)
    requires a.WriteIndexFile? && !WritesIndex(s, a)
    ensures Do(s, a).spool == s.spool && (Do(s, a).phase.Recording? ==> Do(s, a).phase == s.phase)
  {
  }

  predicate AllSettled(s: System, actions: seq<Action>)
    decreases |actions|
  {
    Settled(s) && (actions == [] || AllSettled(Do(s, actions[0]), actions[1..]))
  }

  predicate AllHarmless(s: System, actions: seq<Action>)
    decreases |actions|
  {
    actions == [] || (Harmless(s, actions[0]) && AllHarmless(Do(s, actions[0]), actions[1..]))
  }

  /** With crashes at any step and any failed write: in every state of a run each file that no longer waits
      agrees with the index, if and only if no index that cannot be read is written back while the file of
      another event is settled. */
  lemma {:induction false} SettledFilesAreInTheIndex(s: System, actions: seq<Action>)
    requires Safe(s) && Settled(s)
    ensures AllSettled(s, actions) <==> AllHarmless(s, actions)
    decreases |actions|
  {
    if actions != [] {
      var s' := Do(s, actions[0]);
      StepKeepsSafe(s, actions[0]);
      StepSettlesIffHarmless(s, actions[0]);
      if Settled(s') {
        SettledFilesAreInTheIndex(s', actions[1..]);
      }
    }
  }

  // ----- no operation cut short between its two writes ---------------------------------------------------

  predicate SameStatus(spool: SpoolDisk, id: I.EventId) {
    && (id in spool.files <==> id in spool.index)
    && (id in spool.files ==> spool.files[id].status == spool.index[id])
  }

  ghost predicate AgreeExcept(spool: SpoolDisk, e: I.EventId) {
    forall id :: id != e ==> SameStatus(spool, id)
  }

  ghost predicate AgreeOnAll(spool: SpoolDisk) {
    forall id :: SameStatus(spool, id)
  }

  /** Index and files agree, except for the event that is being written. */
  ghost predicate Agree(s: System) {
    match s.phase
    case Indexing(event, _) => event.id !in s.spool.index && AgreeExcept(s.spool, event.id)
    case Recording(event, _) =>
      event.id in s.spool.index && s.spool.index[event.id].Delivered? && AgreeExcept(s.spool, event.id)
    case _ => AgreeOnAll(s.spool)
  }

  predicate SameElsewhere(a: SpoolDisk, b: SpoolDisk, e: I.EventId) {
    && b.files.Keys + {e} == a.files.Keys + {e} && b.index.Keys + {e} == a.index.Keys + {e}
    && (forall id :: id in a.files && id != e ==> b.files[id].status == a.files[id].status)
    && (forall id :: id in a.index && id != e ==> b.index[id] == a.index[id])
  }

  lemma WriteAgrees(a: SpoolDisk, b: SpoolDisk, e: I.EventId)
    requires AgreeExcept(a, e) && SameElsewhere(a, b, e)
    ensures AgreeExcept(b, e) && (SameStatus(b, e) ==> AgreeOnAll(b))
  {
    forall id | id != e ensures SameStatus(b, id) {
      assert SameStatus(a, id);
      assert id in b.files.Keys + {e} <==> id in a.files.Keys + {e};
      assert id in b.index.Keys + {e} <==> id in a.index.Keys + {e};
    }
  }

  /** Between the two writes of an operation. */
  predicate Halfway(s: System) {
    s.phase.Indexing? || s.phase.Recording?
  }

  /** The second write of an operation follows its first one, and the index can be read when it is updated.
      Anywhere else the agent may stop, and the first write of an operation may fail. */
  predicate Whole(s: System, a: Action) {
    && (Halfway(s) ==> !a.Crash? && (a.WriteIndexFile? || a.WriteStatusFile? ==> a.ok))
    && (a.WriteIndexFile? && a.ok ==> a.readable)
  }

  predicate AllWhole(s: System, actions: seq<Action>)
    decreases |actions|
  {
    actions == [] || (Whole(s, actions[0]) && AllWhole(Do(s, actions[0]), actions[1..]))
  }

  lemma QuietStepsAgree(s: System, a: Action)
    requires Safe(s) && Agree(s) && Whole(s, a)
    requires !a.WriteEntryFile? && !a.WriteIndexFile? && !a.WriteStatusFile? && !a.Count?
    ensures Agree(Do(s, a))
  {
    StepsThatLeaveSpool(s, a);
  }

  lemma EntryAgrees(s: System, ok: bool, now: int)
    requires Safe(s) && Agree(s) && s.phase.Spooling?
    ensures Agree(SpoolEntryFile(s, s.phase.event, s.phase.decision, ok, now))
  {
    assert SameStatus(s.spool, s.phase.event.id);
    WriteAgrees(s.spool, WriteEntry(s.spool, s.phase.event, now), s.phase.event.id);
  }

  lemma NewIndexAgrees(s: System)
    requires Safe(s) && Agree(s) && s.phase.Indexing?
    ensures Agree(SpoolIndexFile(s, s.phase.event, s.phase.decision, true, true))
  {
    WriteAgrees(s.spool, WriteIndex(s.spool, s.phase.event.id, Pending, true), s.phase.event.id);
  }

  lemma ConfirmAgrees(s: System, ok: bool)
    requires Safe(s) && Agree(s) && s.phase.Confirming?
    ensures Agree(ConfirmIndex(s, s.phase.event, s.phase.next, true, ok))
    ensures !ok ==>
              ConfirmIndex(s, s.phase.event, s.phase.next, true, false)
                == ConfirmIndex(s, s.phase.event, s.phase.next, false, false)
  {
    WriteAgrees(s.spool, WriteIndex(s.spool, s.phase.event.id, Delivered, true), s.phase.event.id);
  }

  lemma StatusAgrees(s: System)
    requires Safe(s) && Agree(s) && s.phase.Recording?
    ensures Agree(RecordStatus(s, s.phase.event, s.phase.next, true))
  {
    WriteAgrees(s.spool, WriteStatus(s.spool, s.phase.event.id, Delivered), s.phase.event.id);
  }

  lemma CountAgrees(s: System, ok: bool, now: int)
    requires Safe(s) && Agree(s) && s.phase.Retrying?
    ensures Agree(CountTry(s, s.phase.event, s.phase.decision, ok, now))
  {
    assert SameStatus(s.spool, s.phase.event.id);
    WriteAgrees(s.spool, CountAttempt(s.spool, s.phase.event.id, now), s.phase.event.id);
  }

  lemma StepAgrees(s: System, a: Action)
    requires Safe(s) && Agree(s) && Whole(s, a)
    ensures Agree(Do(s, a))
  {
    match a {
      case WriteEntryFile(ok, now) =>
        if s.phase.Spooling? {
          EntryAgrees(s, ok, now);
        }
      case WriteIndexFile(_, ok) =>
        if s.phase.Indexing? {
          NewIndexAgrees(s);
        } else if s.phase.Confirming? {
          ConfirmAgrees(s, ok);
        }
      case WriteStatusFile(_) =>
        if s.phase.Recording? {
          StatusAgrees(s);
        }
      case Count(ok, now) =>
        if s.phase.Retrying? {
          CountAgrees(s, ok, now);
        }
      case _ => QuietStepsAgree(s, a);
    }
  }

  /** Over runs with stops, restarts, replays, lost replies and failed first writes: as long as no operation
      is cut short between its two writes, index and files agree on every event outside such an operation. */
  lemma {:induction false} IndexAndFilesAgree(s: System, actions: seq<Action>)
    requires Safe(s) && Agree(s) && AllWhole(s, actions)
    ensures Agree(Run(s, actions))
    ensures !Halfway(Run(s, actions)) ==> AgreeOnAll(Run(s, actions).spool)
    decreases |actions|
  {
    if actions != [] {
      StepKeepsSafe(s, actions[0]);
      StepAgrees(s, actions[0]);
      IndexAndFilesAgree(Do(s, actions[0]), actions[1..]);
    }
  }

  /** So a replay that lists the spool after such a run finds exactly the index's pending ids. */
  lemma ReplayFindsTheIndexPending(s: System, actions: seq<Action>, listing: seq<I.EventId>, id: I.EventId)
    requires Fresh(s) && AllWhole(s, actions) && !Halfway(Run(s, actions))
    requires forall i :: i in Run(s, actions).spool.files <==> i in listing
    ensures
      var spool := Run(s, actions).spool;
      var found := SortByTime(PendingIn(spool, listing));
      (id in spool.index && spool.index[id].Pending?) <==> exists k :: 0 <= k < |found| && found[k].event.id == id
  {
    var s' := Run(s, actions);
    IndexAndFilesAgree(s, actions);
    RunsAreSafe(s, actions);
    assert SameStatus(s'.spool, id);
    var found := SortByTime(PendingIn(s'.spool, listing));
    if id in s'.spool.files && s'.spool.files[id].status.Pending? {
      PendingEntriesAreThePendingFiles(s'.spool, listing, s'.spool.files[id]);
      var k :| 0 <= k < |found| && found[k] == s'.spool.files[id];
      assert found[k].event.id == id;
    }
    if k :| 0 <= k < |found| && found[k].event.id == id {
      PendingEntriesAreThePendingFiles(s'.spool, listing, found[k]);
    }
  }
}
