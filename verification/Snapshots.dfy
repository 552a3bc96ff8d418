/** The agent's content-addressed store and its map of current hashes (crates/config-snapshot/src/store.rs). */
module Snapshots {
  import opened Options

  type Bytes = seq<bv8>

  /** The content files by hash, the map in memory, and its copy in `current_state.json`. */
  datatype Store = Store(contents: map<string, Bytes>, current: map<string, string>, saved: map<string, string>)

  function Keep(s: Store, hash: string, data: Bytes): Store {
    s.(contents := s.contents[hash := data])
  }

  function Save(s: Store): Store {
    s.(saved := s.current)
  }

  function Load(s: Store): Store {
    s.(current := s.saved)
  }

  function Write(s: Store, hash: string, data: Bytes, written: bool, noted: bool): (Store, bool) {
    if !written then (s, false)
    else if !noted then (Keep(s, hash, data), false)
    else (Save(Keep(s, hash, data)), true)
  }

  function SetHash(s: Store, path: string, hash: string, saves: bool): (Store, bool) {
    var s' := s.(current := s.current[path := hash]);
    (if saves then Save(s') else s', saves)
  }

  function CurrentHash(s: Store, path: string): Option<string> {
    if path in s.current then Some(s.current[path]) else None
  }

  function ReadContent(s: Store, hash: string, readable: bool): Option<Bytes> {
    if readable && hash in s.contents then Some(s.contents[hash]) else None
  }

  predicate ContentExists(s: Store, hash: string) {
    |hash| >= 2 && hash in s.contents
  }

  class SnapshotStore {
    var contents: map<string, Bytes>
    var state: map<string, string>
    var saved: map<string, string>

    function Value(): Store
      reads this
    {
      Store(contents, state, saved)
    }

    /** Opens the store that is on disk. */
    constructor (disk: Store)
      ensures Value() == Load(disk)
    {
      contents, state, saved := disk.contents, disk.saved, disk.saved;
    }

    method WriteSnapshot(hash: string, data: Bytes, written: bool, noted: bool) returns (ok: bool)
      modifies this
      ensures (Value(), ok) == Write(old(Value()), hash, data, written, noted)
    {
      if !written {
        return false;
      }
      contents := contents[hash := data];
      if noted {
        saved := state;
      }
      ok := noted;
    }

    method SetCurrentHash(path: string, hash: string, saves: bool) returns (ok: bool)
      modifies this
      ensures (Value(), ok) == SetHash(old(Value()), path, hash, saves)
    {
      state := state[path := hash];
      if saves {
        saved := state;
      }
      ok := saves;
    }
  }
}
