/** The debounce window (crates/config-agent/src/debounce.rs): many raw watch events on a file become one. */
module Debounce {
  import S = Spool

  datatype RawEventKind = Created | Modified | Deleted | Other

  /** A raw event, and whether the file existed when it arrived. */
  datatype RawEvent = RawEvent(path: string, kind: RawEventKind, at: int, found: bool)

  datatype DebouncedEvent = DebouncedEvent(path: string, kind: S.ChangeKind, observedAt: int, rawCount: nat)

  datatype Entry = Entry(firstSeen: int, latestKind: RawEventKind, rawCount: nat, existsBefore: bool)

  function MapDebouncedKind(latest: RawEventKind, existedBefore: bool): S.ChangeKind {
    match latest
    case Created => S.Created
    case Deleted => S.Deleted
    case Modified => if existedBefore then S.Modified else S.Created
    case Other => S.MetadataOnly
  }

  // ----- the meaning of an entry: the raw events of its window ----------------------------------------

  predicate EverExisted(trace: seq<RawEvent>) {
    exists k :: 0 <= k < |trace| && trace[k].found
  }

  predicate Describes(entry: Entry, trace: seq<RawEvent>) {
    && trace != [] && entry.firstSeen == trace[0].at && entry.latestKind == trace[|trace| - 1].kind
    && entry.rawCount == |trace| && entry.existsBefore == EverExisted(trace)
  }

  /** What a debounced event says about the raw events of its window: a modification of a file that no event
      found is a creation. */
  predicate Summarises(event: DebouncedEvent, path: string, trace: seq<RawEvent>)
    requires trace != []
  {
    var last, found := trace[|trace| - 1].kind, exists k :: 0 <= k < |trace| && trace[k].found;
    && event.path == path && event.observedAt == trace[0].at && event.rawCount == |trace|
    && (event.kind == S.Deleted <==> last == Deleted)
    && (event.kind == S.Created <==> last == Created || (last == Modified && !found))
    && (event.kind == S.Modified <==> last == Modified && found)
    && (event.kind == S.MetadataOnly <==> last == Other)
  }

  /** The raw events on one path. */
  function OnPath(log: seq<RawEvent>, path: string): seq<RawEvent> {
    if log == [] then []
    else OnPath(log[..|log| - 1], path) + (if log[|log| - 1].path == path then [log[|log| - 1]] else [])
  }

  /** A finished window. */
  datatype Emission = Emission(path: string, trace: seq<RawEvent>)

  function EmittedOn(emissions: seq<Emission>, path: string): seq<RawEvent> {
    if emissions == [] then []
    else
      EmittedOn(emissions[..|emissions| - 1], path)
      + (if emissions[|emissions| - 1].path == path then emissions[|emissions| - 1].trace else [])
  }

  function OpenOn(windows: map<string, seq<RawEvent>>, path: string): seq<RawEvent> {
    if path in windows then windows[path] else []
  }

  /** Each raw event is in exactly one window, in order: the windows finished on its path, then the open one. */
  ghost predicate Accounted(log: seq<RawEvent>, emissions: seq<Emission>, windows: map<string, seq<RawEvent>>) {
    forall path :: OnPath(log, path) == EmittedOn(emissions, path) + OpenOn(windows, path)
  }

  predicate Faithful(pending: map<string, Entry>, windows: map<string, seq<RawEvent>>) {
    pending.Keys == windows.Keys && forall path :: path in pending ==> Describes(pending[path], windows[path])
  }

  /** The events match the finished windows, one for one. */
  predicate Reports(events: seq<DebouncedEvent>, emissions: seq<Emission>) {
    |events| == |emissions| &&
    forall k :: 0 <= k < |events| ==>
      emissions[k].trace != [] && Summarises(events[k], emissions[k].path, emissions[k].trace)
  }

  predicate Expired(entry: Entry, now: int, windowMs: nat) {
    now - entry.firstSeen >= windowMs
  }

  /** The paths whose first open raw event is at least `windowMs` old. */
  function Due(windows: map<string, seq<RawEvent>>, now: int, windowMs: nat): set<string> {
    set path | path in windows && windows[path] != [] && windows[path][0].at + windowMs <= now
  }

  /** The finished windows are the whole open windows of these paths, each once. */
  predicate Finishes(done: seq<Emission>, windows: map<string, seq<RawEvent>>, paths: set<string>) {
    && |done| == |paths|
    && (forall k :: 0 <= k < |done| ==>
          done[k].path in paths && done[k].path in windows && done[k].trace == windows[done[k].path])
    && (forall path :: path in paths ==> exists k :: 0 <= k < |done| && done[k].path == path)
  }

  lemma EntryFollows(before: Entry, after: Entry, trace: seq<RawEvent>, e: RawEvent)
    requires if trace == [] then before == Entry(e.at, e.kind, 0, e.found) else Describes(before, trace)
    requires after == Entry(before.firstSeen, e.kind, before.rawCount + 1, before.existsBefore || e.found)
    ensures Describes(after, trace + [e])
  {
    assert (trace + [e])[|trace|] == e;
    assert forall k :: 0 <= k < |trace| ==> (trace + [e])[k] == trace[k];
    if k :| 0 <= k < |trace| && trace[k].found {
      assert (trace + [e])[k].found;
    }
  }

  lemma EntryKeepsFaithful(pending: map<string, Entry>, windows: map<string, seq<RawEvent>>, path: string,
                           entry: Entry, trace: seq<RawEvent>)
    requires Faithful(pending, windows) && Describes(entry, trace)
    ensures Faithful(pending[path := entry], windows[path := trace])
  {
  }

  lemma EntrySummarises(entry: Entry, path: string, trace: seq<RawEvent>)
    requires Describes(entry, trace)
    ensures Summarises(DebouncedEvent(path, MapDebouncedKind(entry.latestKind, entry.existsBefore), entry.firstSeen,
                                      entry.rawCount), path, trace)
  {
  }

  lemma OneMoreOnPath(log: seq<RawEvent>, e: RawEvent, path: string, emitted: seq<RawEvent>, open: seq<RawEvent>)
    requires OnPath(log, path) == emitted + open
    ensures OnPath(log + [e], path) == emitted + (if e.path == path then open + [e] else open)
  {
    assert (log + [e])[..|log|] == log && (log + [e])[|log|] == e;
    assert emitted + (open + [e]) == emitted + open + [e];
    assert emitted + open + [] == emitted + open;
  }

  lemma IngestAccounts(log: seq<RawEvent>, emissions: seq<Emission>, windows: map<string, seq<RawEvent>>, e: RawEvent)
    requires Accounted(log, emissions, windows)
    ensures Accounted(log + [e], emissions, windows[e.path := OpenOn(windows, e.path) + [e]])
  {
    var wider := windows[e.path := OpenOn(windows, e.path) + [e]];
    forall path ensures OnPath(log + [e], path) == EmittedOn(emissions, path) + OpenOn(wider, path) {
      OneMoreOnPath(log, e, path, EmittedOn(emissions, path), OpenOn(windows, path));
    }
  }

  lemma EmitAccounts(log: seq<RawEvent>, emissions: seq<Emission>, windows: map<string, seq<RawEvent>>, key: string)
    requires Accounted(log, emissions, windows) && key in windows
    ensures Accounted(log, emissions + [Emission(key, windows[key])], windows - {key})
  {
    var e := Emission(key, windows[key]);
    forall path ensures OnPath(log, path) == EmittedOn(emissions + [e], path) + OpenOn(windows - {key}, path) {
      assert (emissions + [e])[..|emissions|] == emissions && (emissions + [e])[|emissions|] == e;
      assert OnPath(log, path) == EmittedOn(emissions, path) + OpenOn(windows, path);
      assert EmittedOn(emissions, path) + [] == EmittedOn(emissions, path);
    }
  }

  // ----- the window ---------------------------------------------------------------------------------

  class DebounceWindow {
    const windowMs: nat
    var pending: map<string, Entry>
    ghost var log: seq<RawEvent>
    ghost var emissions: seq<Emission>
    ghost var windows: map<string, seq<RawEvent>>

    /** Every entry describes the raw events of its window, and every raw event is in one window. */
    ghost predicate Valid()
      reads this
    {
      Faithful(pending, windows) && Accounted(log, emissions, windows)
    }

    constructor (windowMs: nat)
      ensures Valid() && this.windowMs == windowMs && pending == map[] && log == [] && emissions == []
    {
      this.windowMs, pending, log, emissions, windows := windowMs, map[], [], [], map[];
    }

    method IngestRaw(e: RawEvent)
      requires Valid()
      modifies this
      ensures Valid() && log == old(log) + [e] && emissions == old(emissions)
      ensures windows == old(windows)[e.path := OpenOn(old(windows), e.path) + [e]]
    {
      var before := if e.path in pending then pending[e.path] else Entry(e.at, e.kind, 0, e.found);
      ghost var trace := OpenOn(windows, e.path);
      var entry := before.(latestKind := e.kind, rawCount := before.rawCount + 1);
      if e.found {
        entry := entry.(existsBefore := true);
      }
      pending := pending[e.path := entry];
      IngestAccounts(log, emissions, windows, e);
      EntryFollows(before, entry, trace, e);
      EntryKeepsFaithful(old(pending), windows, e.path, entry, trace + [e]);
      log, windows := log + [e], windows[e.path := trace + [e]];
    }

    /** Takes out the entries of these paths, in any order. */
    method Emit(keys: set<string>) returns (events: seq<DebouncedEvent>, ghost done: seq<Emission>)
      requires Valid() && keys <= pending.Keys
      modifies this
      ensures Valid() && log == old(log) && emissions == old(emissions) + done && Reports(events, done)
      ensures pending == old(pending) - keys && windows == old(windows) - keys && Finishes(done, old(windows), keys)
    {
      events, done := [], [];
      var rest := keys;
      ghost var gone: set<string> := {};
      ghost var first, entries, traces := emissions, pending, windows;
      while rest != {}
        invariant keys == rest + gone && rest !! gone && Valid() && log == old(log)
        invariant emissions == first + done && Reports(events, done) && Finishes(done, traces, gone)
        invariant pending == entries - gone && windows == traces - gone
      {
        var key :| key in rest;
        events, done := EmitNext(key, events, done, first, traces, gone);
        WithoutOneMore(entries, gone, key);
        MoveOver(keys, rest, gone, key);
        rest, gone := rest - {key}, gone + {key};
      }
    }

    method EmitNext(key: string, events: seq<DebouncedEvent>, ghost done: seq<Emission>, ghost first: seq<Emission>,
                    ghost traces: map<string, seq<RawEvent>>, ghost gone: set<string>)
      returns (events': seq<DebouncedEvent>, ghost done': seq<Emission>)
      requires Valid() && key in pending && key !in gone && windows == traces - gone && emissions == first + done
      requires Reports(events, done) && Finishes(done, traces, gone)
      modifies this
      ensures Valid() && log == old(log) && pending == old(pending) - {key} && windows == traces - (gone + {key})
      ensures emissions == first + done' && Reports(events', done') && Finishes(done', traces, gone + {key})
    {
      var event; ghost var emission;
      event, emission := EmitOne(key);
      EmitOneMore(events, done, event, emission, first, traces, gone);
      events', done' := events + [event], done + [emission];
    }

    method EmitOne(key: string) returns (event: DebouncedEvent, ghost emission: Emission)
      requires Valid() && key in pending
      modifies this
      ensures Valid() && log == old(log) && emission == Emission(key, old(windows)[key])
      ensures emissions == old(emissions) + [emission]
      ensures emission.trace != [] && Summarises(event, key, emission.trace)
      ensures pending == old(pending) - {key} && windows == old(windows) - {key}
    {
      var entry := pending[key];
      EmitAccounts(log, emissions, windows, key);
      EntrySummarises(entry, key, windows[key]);
      emission := Emission(key, windows[key]);
      pending, windows, emissions := pending - {key}, windows - {key}, emissions + [emission];
      event := DebouncedEvent(key, MapDebouncedKind(entry.latestKind, entry.existsBefore), entry.firstSeen,
                              entry.rawCount);
    }

    /** Reports the windows whose first raw event is old enough, one event each; the others stay. */
    method FlushExpired(now: int) returns (events: seq<DebouncedEvent>, ghost done: seq<Emission>)
      requires Valid()
      modifies this
      ensures Valid() && log == old(log) && emissions == old(emissions) + done && Reports(events, done)
      ensures Finishes(done, old(windows), Due(old(windows), now, windowMs))
      ensures pending == old(pending) - Due(old(windows), now, windowMs)
      ensures windows == old(windows) - Due(old(windows), now, windowMs)
    {
      var keys := set path | path in pending && Expired(pending[path], now, windowMs);
      ExpiredAreDue(pending, windows, now, windowMs);
      events, done := Emit(keys);
    }

    /** Reports all windows. */
    method FlushAll() returns (events: seq<DebouncedEvent>, ghost done: seq<Emission>)
      requires Valid()
      modifies this
      ensures Valid() && log == old(log) && emissions == old(emissions) + done && Reports(events, done)
      ensures Finishes(done, old(windows), old(windows).Keys)
      ensures pending == map[] && windows == map[]
    {
      events, done := Emit(pending.Keys);
    }

    method PendingCount() returns (count: nat)
      ensures count == |pending|
    {
      count := |pending|;
    }
  }

  lemma WithoutOneMore<T>(m: map<string, T>, keys: set<string>, key: string)
    ensures m - keys - {key} == m - (keys + {key})
  {
  }

  lemma MoveOver(keys: set<string>, rest: set<string>, gone: set<string>, key: string)
    requires keys == rest + gone && rest !! gone && key in rest
    ensures keys == rest - {key} + (gone + {key}) && (rest - {key}) !! (gone + {key})
  {
  }

  lemma EmitOneMore(events: seq<DebouncedEvent>, done: seq<Emission>, event: DebouncedEvent, e: Emission,
                    first: seq<Emission>, windows: map<string, seq<RawEvent>>, gone: set<string>)
    requires Reports(events, done) && e.trace != [] && Summarises(event, e.path, e.trace)
    requires Finishes(done, windows, gone) && e.path !in gone && e.path in windows && e.trace == windows[e.path]
    ensures Reports(events + [event], done + [e]) && Finishes(done + [e], windows, gone + {e.path})
    ensures first + done + [e] == first + (done + [e])
    ensures windows - gone - {e.path} == windows - (gone + {e.path})
  {
    ReportOneMore(events, done, event, e);
    FinishOneMore(done, windows, gone, e);
    WithoutOneMore(windows, gone, e.path);
  }

  lemma ReportOneMore(events: seq<DebouncedEvent>, done: seq<Emission>, event: DebouncedEvent, e: Emission)
    requires Reports(events, done) && e.trace != [] && Summarises(event, e.path, e.trace)
    ensures Reports(events + [event], done + [e])
  {
    var events', done' := events + [event], done + [e];
    assert events'[|events|] == event && done'[|done|] == e;
    forall k | 0 <= k < |events| ensures done'[k].trace != [] && Summarises(events'[k], done'[k].path, done'[k].trace) {
      assert events'[k] == events[k] && done'[k] == done[k];
    }
  }

  lemma FinishOneMore(done: seq<Emission>, windows: map<string, seq<RawEvent>>, paths: set<string>, e: Emission)
    requires Finishes(done, windows, paths) && e.path !in paths && e.path in windows && e.trace == windows[e.path]
    ensures Finishes(done + [e], windows, paths + {e.path})
  {
    var more := done + [e];
    assert more[|done|] == e;
    forall path | path in paths + {e.path} ensures exists k :: 0 <= k < |more| && more[k].path == path {
      if path in paths {
        var k :| 0 <= k < |done| && done[k].path == path;
        assert more[k] == done[k];
      }
    }
  }

  lemma ExpiredAreDue(pending: map<string, Entry>, windows: map<string, seq<RawEvent>>, now: int, windowMs: nat)
    requires Faithful(pending, windows)
    ensures (set path | path in pending && Expired(pending[path], now, windowMs)) == Due(windows, now, windowMs)
  {
    forall path
      ensures path in pending && Expired(pending[path], now, windowMs) <==> path in Due(windows, now, windowMs)
    {
      if path in pending {
        assert Describes(pending[path], windows[path]);
      }
    }
  }

  // ----- conservation -------------------------------------------------------------------------------

  function CountEmitted(emissions: seq<Emission>, path: string): nat {
    if emissions == [] then 0
    else
      CountEmitted(emissions[..|emissions| - 1], path)
      + (if emissions[|emissions| - 1].path == path then |emissions[|emissions| - 1].trace| else 0)
  }

  lemma {:induction false} EmittedCount(emissions: seq<Emission>, path: string)
    ensures |EmittedOn(emissions, path)| == CountEmitted(emissions, path)
  {
    if emissions != [] {
      EmittedCount(emissions[..|emissions| - 1], path);
    }
  }

  /** On every path the raw events are as many as its debounced events and its pending entry count. */
  lemma RawEventsAreCountedOnce(log: seq<RawEvent>, emissions: seq<Emission>, windows: map<string, seq<RawEvent>>,
                                pending: map<string, Entry>, path: string)
    requires Faithful(pending, windows) && Accounted(log, emissions, windows)
    ensures |OnPath(log, path)|
            == CountEmitted(emissions, path) + (if path in pending then pending[path].rawCount else 0)
  {
    assert OnPath(log, path) == EmittedOn(emissions, path) + OpenOn(windows, path);
    EmittedCount(emissions, path);
  }

  /** A file created and then modified in one window is reported as modified, not created: being there
      after its creation counts as having existed. */
  lemma CreatedThenModified(event: DebouncedEvent, path: string, trace: seq<RawEvent>)
    requires trace != [] && Summarises(event, path, trace)
    requires trace[0].kind.Created? && trace[|trace| - 1].kind.Modified? && trace[|trace| - 1].found
    ensures event.kind == S.Modified
  {
    assert trace[|trace| - 1].found;
  }

  /** The event of a window is determined by its raw events. */
  lemma SummaryIsUnique(a: DebouncedEvent, b: DebouncedEvent, path: string, trace: seq<RawEvent>)
    requires trace != [] && Summarises(a, path, trace) && Summarises(b, path, trace)
    ensures a == b
  {
    var last := trace[|trace| - 1].kind;
    match last {
      case Created =>
      case Modified =>
      case Deleted =>
      case Other =>
    }
  }
}
