/** The agent's spool (crates/config-agent/src/spool.rs): one file per event and an index of statuses. */
module Spool {
  import opened Options
  import opened IdempotencyKeys
  import opened Ingest

  datatype ChangeKind = Created | Modified | Deleted | MetadataOnly | PermissionChanged | InitialSnapshot

  /** A change event and the transition its idempotency key is made of. An absent file has the empty hash. */
  datatype ChangeEvent = ChangeEvent(id: EventId, kind: ChangeKind, transition: Transition)

  datatype DeliveryStatus = Pending | Delivered | FailedPermanently(reason: string)

  datatype SpoolEntry = SpoolEntry(event: ChangeEvent, status: DeliveryStatus, createdAt: int, attempts: nat,
                                   lastAttemptAt: Option<int>)

  /** The spool directory: the files under `pending`, by event id, and `index.json`. */
  datatype SpoolDisk = SpoolDisk(files: map<EventId, SpoolEntry>, index: map<EventId, DeliveryStatus>)

  // ----- the single writes --------------------------------------------------------------------------

  function NewEntry(event: ChangeEvent, now: int): SpoolEntry {
    SpoolEntry(event, Pending, now, 0, None)
  }

  function WriteEntry(d: SpoolDisk, event: ChangeEvent, now: int): SpoolDisk {
    d.(files := d.files[event.id := NewEntry(event, now)])
  }

  /** The index is read, changed and written back; an index that cannot be read counts as empty. */
  function WriteIndex(d: SpoolDisk, id: EventId, status: DeliveryStatus, readable: bool): SpoolDisk {
    d.(index := (if readable then d.index else map[])[id := status])
  }

  function WriteStatus(d: SpoolDisk, id: EventId, status: DeliveryStatus): SpoolDisk {
    if id in d.files then d.(files := d.files[id := d.files[id].(status := status)]) else d
  }

  function CountAttempt(d: SpoolDisk, id: EventId, now: int): SpoolDisk {
    if id in d.files then
      d.(files := d.files[id := d.files[id].(attempts := d.files[id].attempts + 1, lastAttemptAt := Some(now))])
    else d
  }

  // ----- the operations -----------------------------------------------------------------------------

  /** Which reads and writes of one operation work. */
  datatype SpoolIo = SpoolIo(dirReadable: bool, indexReadable: bool, indexWritten: bool, fileReadable: bool,
                             fileParses: bool, fileWritten: bool)

  predicate FileRewritten(io: SpoolIo) {
    io.fileReadable && io.fileParses && io.fileWritten
  }

  function Append(d: SpoolDisk, event: ChangeEvent, now: int, io: SpoolIo): (SpoolDisk, bool) {
    if !io.dirReadable || !io.fileWritten then (d, false)
    else if !io.indexWritten then (WriteEntry(d, event, now), false)
    else (WriteIndex(WriteEntry(d, event, now), event.id, Pending, io.indexReadable), true)
  }

  function Mark(d: SpoolDisk, id: EventId, status: DeliveryStatus, io: SpoolIo): (SpoolDisk, bool) {
    if !io.indexWritten then (d, false)
    else
      var d' := WriteIndex(d, id, status, io.indexReadable);
      if id !in d.files then (d', true)
      else if !io.fileReadable then (d', false)
      else if !io.fileParses then (d', true)
      else if !io.fileWritten then (d', false)
      else (WriteStatus(d', id, status), true)
  }

  function PendingIn(d: SpoolDisk, listing: seq<EventId>): seq<SpoolEntry> {
    if listing == [] then []
    else
      (if listing[0] in d.files && d.files[listing[0]].status.Pending? then [d.files[listing[0]]] else [])
      + PendingIn(d, listing[1..])
  }

  function InsertByTime(entries: seq<SpoolEntry>, entry: SpoolEntry): seq<SpoolEntry> {
    if entries == [] then [entry]
    else if entries[0].createdAt <= entry.createdAt then [entries[0]] + InsertByTime(entries[1..], entry)
    else [entry] + entries
  }

  /** The stable sort by creation time. */
  function SortByTime(entries: seq<SpoolEntry>): seq<SpoolEntry> {
    if entries == [] then [] else InsertByTime(SortByTime(entries[..|entries| - 1]), entries[|entries| - 1])
  }

  lemma {:induction false} PendingInAppend(d: SpoolDisk, a: seq<EventId>, id: EventId)
    ensures PendingIn(d, a + [id])
         == PendingIn(d, a) + (if id in d.files && d.files[id].status.Pending? then [d.files[id]] else [])
  {
    if a == [] {
      assert a + [id] == [id] && [id][1..] == [];
    } else {
      assert (a + [id])[0] == a[0] && (a + [id])[1..] == a[1..] + [id];
      PendingInAppend(d, a[1..], id);
    }
  }

  class SpoolWriter {
    var files: map<EventId, SpoolEntry>
    var index: map<EventId, DeliveryStatus>

    function Disk(): SpoolDisk
      reads this
    {
      SpoolDisk(files, index)
    }

    constructor (d: SpoolDisk)
      ensures Disk() == d
    {
      files, index := d.files, d.index;
    }

    method AppendEvent(event: ChangeEvent, now: int, io: SpoolIo) returns (ok: bool)
      modifies this
      ensures (Disk(), ok) == Append(old(Disk()), event, now, io)
      ensures ok <==> io.dirReadable && io.fileWritten && io.indexWritten
      ensures files == if io.dirReadable && io.fileWritten then
                         old(files)[event.id := SpoolEntry(event, Pending, now, 0, None)]
                       else old(files)
    {
      if !io.dirReadable || !io.fileWritten {
        return false;
      }
      files := files[event.id := SpoolEntry(event, Pending, now, 0, None)];
      ok := UpdateStatus(event.id, Pending, io);
    }

    method UpdateStatus(id: EventId, status: DeliveryStatus, io: SpoolIo) returns (ok: bool)
      modifies this`index
      ensures ok == io.indexWritten
      ensures Disk() == if ok then WriteIndex(old(Disk()), id, status, io.indexReadable) else old(Disk())
    {
      var entries := if io.indexReadable then index else map[];
      entries := entries[id := status];
      if io.indexWritten {
        index := entries;
      }
      ok := io.indexWritten;
    }

    method MarkDelivered(id: EventId, io: SpoolIo) returns (ok: bool)
      modifies this
      ensures (Disk(), ok) == Mark(old(Disk()), id, Delivered, io)
    {
      ok := MarkAs(id, Delivered, io);
    }

    method MarkFailed(id: EventId, reason: string, io: SpoolIo) returns (ok: bool)
      modifies this
      ensures (Disk(), ok) == Mark(old(Disk()), id, FailedPermanently(reason), io)
    {
      ok := MarkAs(id, FailedPermanently(reason), io);
    }

    method MarkAs(id: EventId, status: DeliveryStatus, io: SpoolIo) returns (ok: bool)
      modifies this
      ensures (Disk(), ok) == Mark(old(Disk()), id, status, io)
      ensures ok <==> io.indexWritten
                      && (id in old(files) ==> io.fileReadable && (io.fileParses ==> io.fileWritten))
      ensures files == if id in old(files) && io.indexWritten && FileRewritten(io) then
                         old(files)[id := old(files)[id].(status := status)]
                       else old(files)
    {
      ok := UpdateStatus(id, status, io);
      if !ok || id !in files {
        return;
      }
      if !io.fileReadable {
        return false;
      }
      if !io.fileParses {
        return;
      }
      if !io.fileWritten {
        return false;
      }
      var entry := files[id];
      entry := entry.(status := status);
      files := files[id := entry];
    }

    /** The new number of attempts, 0 if there is no file, or None when reading, parsing or writing fails. */
    method IncrementAttempts(id: EventId, now: int, io: SpoolIo) returns (attempts: Option<nat>)
      modifies this`files
      ensures id !in old(files) ==> attempts == Some(0) && Disk() == old(Disk())
      ensures id in old(files) && FileRewritten(io) ==>
                Disk() == CountAttempt(old(Disk()), id, now) && attempts == Some(old(files)[id].attempts + 1)
      ensures id in old(files) && !FileRewritten(io) ==> attempts == None && Disk() == old(Disk())
    {
      if id !in files {
        return Some(0);
      }
      if !io.fileReadable || !io.fileParses {
        return None;
      }
      var entry := files[id];
      entry := entry.(attempts := entry.attempts + 1, lastAttemptAt := Some(now));
      if !io.fileWritten {
        return None;
      }
      files := files[id := entry];
      attempts := Some(entry.attempts);
    }

    /** `listing` names the files that can be read, in directory order. */
    method PendingEntries(listing: seq<EventId>) returns (entries: seq<SpoolEntry>)
      ensures entries == SortByTime(PendingIn(Disk(), listing))
    {
      entries := [];
      for i := 0 to |listing|
        invariant entries == PendingIn(Disk(), listing[..i])
      {
        assert listing[..i + 1] == listing[..i] + [listing[i]];
        PendingInAppend(Disk(), listing[..i], listing[i]);
        if listing[i] in files && files[listing[i]].status.Pending? {
          entries := entries + [files[listing[i]]];
        }
      }
      assert listing[..|listing|] == listing;
      entries := SortByTime(entries);
    }

    /** The spool depth of a heartbeat: the number of files. */
    method PendingCount() returns (count: nat)
      ensures count == |files|
    {
      count := |files|;
    }
  }

  // ----- what is listed, and what is counted ----------------------------------------------------------

  predicate Sorted(entries: seq<SpoolEntry>) {
    forall i, j :: 0 <= i < j < |entries| ==> entries[i].createdAt <= entries[j].createdAt
  }

  lemma {:induction false} InsertSorts(entries: seq<SpoolEntry>, entry: SpoolEntry)
    requires Sorted(entries)
    ensures Sorted(InsertByTime(entries, entry))
    ensures multiset(InsertByTime(entries, entry)) == multiset(entries) + multiset{entry}
  {
    if entries == [] {
    } else if entries[0].createdAt <= entry.createdAt {
      InsertSorts(entries[1..], entry);
      InsertBounds(entries[1..], entry, entries[0].createdAt);
      assert entries == [entries[0]] + entries[1..];
    }
  }

  lemma {:induction false} InsertBounds(entries: seq<SpoolEntry>, entry: SpoolEntry, bound: int)
    requires entry.createdAt >= bound && forall k :: 0 <= k < |entries| ==> entries[k].createdAt >= bound
    ensures forall k :: 0 <= k < |InsertByTime(entries, entry)| ==> InsertByTime(entries, entry)[k].createdAt >= bound
  {
    if entries != [] {
      InsertBounds(entries[1..], entry, bound);
    }
  }

  lemma {:induction false} SortSorts(entries: seq<SpoolEntry>)
    ensures Sorted(SortByTime(entries)) && multiset(SortByTime(entries)) == multiset(entries)
  {
    if entries != [] {
      var n := |entries| - 1;
      SortSorts(entries[..n]);
      InsertSorts(SortByTime(entries[..n]), entries[n]);
      assert entries == entries[..n] + [entries[n]];
    }
  }

  /** The entries of one creation time, in order. */
  function AtTime(entries: seq<SpoolEntry>, time: int): seq<SpoolEntry> {
    if entries == [] then []
    else (if entries[0].createdAt == time then [entries[0]] else []) + AtTime(entries[1..], time)
  }

  lemma {:induction false} AtTimeAppend(a: seq<SpoolEntry>, b: seq<SpoolEntry>, time: int)
    ensures AtTime(a + b, time) == AtTime(a, time) + AtTime(b, time)
  {
    if a == [] {
      assert a + b == b;
    } else {
      assert (a + b)[0] == a[0] && (a + b)[1..] == a[1..] + b;
      AtTimeAppend(a[1..], b, time);
    }
  }

  lemma {:induction false} NoneAtTime(entries: seq<SpoolEntry>, time: int)
    requires forall k :: 0 <= k < |entries| ==> entries[k].createdAt != time
    ensures AtTime(entries, time) == []
  {
    if entries != [] {
      NoneAtTime(entries[1..], time);
    }
  }

  lemma {:induction false} InsertIsStable(entries: seq<SpoolEntry>, entry: SpoolEntry, time: int)
    requires Sorted(entries)
    ensures AtTime(InsertByTime(entries, entry), time) == AtTime(entries + [entry], time)
  {
    if entries == [] {
      assert entries + [entry] == [entry];
    } else if entries[0].createdAt <= entry.createdAt {
      InsertIsStable(entries[1..], entry, time);
      assert (entries + [entry])[0] == entries[0] && (entries + [entry])[1..] == entries[1..] + [entry];
    } else {
      AtTimeAppend(entries, [entry], time);
      AtTimeAppend([entry], entries, time);
      if entry.createdAt == time {
        NoneAtTime(entries, time);
      }
      assert [entry][1..] == [];
    }
  }

  /** Entries of one creation time stay in the order in which they were listed. */
  lemma {:induction false} SortIsStable(entries: seq<SpoolEntry>, time: int)
    ensures AtTime(SortByTime(entries), time) == AtTime(entries, time)
  {
    if entries != [] {
      var n := |entries| - 1;
      SortIsStable(entries[..n], time);
      SortSorts(entries[..n]);
      InsertIsStable(SortByTime(entries[..n]), entries[n], time);
      AtTimeAppend(SortByTime(entries[..n]), [entries[n]], time);
      AtTimeAppend(entries[..n], [entries[n]], time);
      assert entries == entries[..n] + [entries[n]];
    }
  }

  lemma {:induction false} PendingInHolds(d: SpoolDisk, listing: seq<EventId>, entry: SpoolEntry)
    ensures entry in PendingIn(d, listing) <==>
            exists k :: 0 <= k < |listing| && listing[k] in d.files && d.files[listing[k]] == entry
              && entry.status.Pending?
  {
    if listing != [] {
      PendingInHolds(d, listing[1..], entry);
      if k :| 0 <= k < |listing| && listing[k] in d.files && d.files[listing[k]] == entry && entry.status.Pending? {
        if k > 0 {
          assert listing[1..][k - 1] == listing[k];
        }
      }
    }
  }

  /** The pending entries are the pending files, in order of creation. */
  lemma PendingEntriesAreThePendingFiles(d: SpoolDisk, listing: seq<EventId>, entry: SpoolEntry)
    requires forall id :: id in d.files <==> id in listing
    ensures Sorted(SortByTime(PendingIn(d, listing)))
    ensures entry in SortByTime(PendingIn(d, listing)) <==>
            entry.status.Pending? && exists id :: id in d.files && d.files[id] == entry
  {
    var found := PendingIn(d, listing);
    SortSorts(found);
    assert entry in SortByTime(found) <==> entry in multiset(SortByTime(found));
    assert entry in found <==> entry in multiset(found);
    PendingInHolds(d, listing, entry);
    if entry.status.Pending? {
      if id :| id in d.files && d.files[id] == entry {
        var k :| 0 <= k < |listing| && listing[k] == id;
        assert listing[k] in d.files && d.files[listing[k]] == entry;
      }
    }
  }

  function FilesThatWait(d: SpoolDisk): set<EventId> {
    set id | id in d.files && d.files[id].status.Pending?
  }

  lemma MarkKeepsFiles(d: SpoolDisk, id: EventId, status: DeliveryStatus, io: SpoolIo)
    ensures Mark(d, id, status, io).0.files.Keys == d.files.Keys
  {
  }

  /** The spool depth of a heartbeat counts every file. It is the number of files that wait if and only if
      no file is settled; marking an event leaves it. */
  lemma DepthIsPendingIffNoneSettled(d: SpoolDisk, id: EventId, status: DeliveryStatus, io: SpoolIo)
    ensures |d.files| == |FilesThatWait(d)| <==> forall i :: i in d.files ==> d.files[i].status.Pending?
    ensures |Mark(d, id, status, io).0.files| == |d.files|
  {
    var settled := d.files.Keys - FilesThatWait(d);
    assert |d.files| == |d.files.Keys| && FilesThatWait(d) <= d.files.Keys;
    assert |d.files.Keys| == |FilesThatWait(d)| + |settled|;
    assert settled == {} <==> forall i :: i in d.files ==> i in FilesThatWait(d);
    MarkKeepsFiles(d, id, status, io);
    assert |Mark(d, id, status, io).0.files| == |Mark(d, id, status, io).0.files.Keys|;
  }
}
