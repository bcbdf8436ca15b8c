/** The state file: what it holds, and how it is read and written. */
module StateStore {
  import opened Common
  import opened Service

  const VERSION: nat := 1

  /** The state file. `grants` is flat: one row for each pair, the key printed. */
  datatype State = State(version: nat, grants: seq<(Port, string)>, services: Specs, binds: map<Port, Port>)

  const EMPTY_STATE := State(0, [], map[], map[])

  /** What a state file says: the order and repetition of its rows mean nothing. */
  datatype Stored = Stored(version: nat, grants: set<(Port, string)>, services: Specs, binds: map<Port, Port>)

  function RowSet(rows: seq<(Port, string)>): set<(Port, string)> {
    set row <- rows
  }

  function Meaning(s: State): Stored {
    Stored(s.version, RowSet(s.grants), s.services, s.binds)
  }

  predicate IsEmpty(s: State) {
    s.grants == [] && s.services == map[] && s.binds == map[]
  }

  class Store {
    var file: Option<State>

    constructor (file: Option<State>)
      ensures this.file == file
    {
      this.file := file;
    }

    /** A missing file is empty state; a newer version is refused. */
    method Load() returns (r: Result<State, ErrorKind>)
      ensures r.Ok? <==> Readable()
      ensures r.Ok? ==> r.value == Contents()
      ensures r.Err? ==> r.error == Internal
    {
      if file.None? {
        r := Ok(EMPTY_STATE);
      } else if file.value.version > VERSION {
        r := Err(Internal);
      } else {
        r := Ok(file.value);
      }
    }

    /** No newer program wrote the file. */
    predicate Readable()
      reads this
    {
      file.Some? ==> file.value.version <= VERSION
    }

    function Contents(): State
      reads this
    {
      if file.Some? then file.value else EMPTY_STATE
    }

    /** What is saved can always be loaded, and is what was saved with the version
        of this program. */
    method SaveThenLoad(state: State) returns (r: Result<State, ErrorKind>)
      modifies this
      ensures r == Ok(state.(version := VERSION))
    {
      var saved := Save(state, true);
      r := Load();
    }

    /** Replaces the file, stamped with the version; `disk` says whether the
        write succeeds. A failed one leaves the file as it was. */
    method Save(state: State, disk: bool) returns (saved: bool)
      modifies this
      ensures saved == disk
      ensures saved ==> Readable() && Contents() == state.(version := VERSION)
      ensures file == if disk then Some(state.(version := VERSION)) else old(file)
    {
      if disk {
        file := Some(State(VERSION, state.grants, state.services, state.binds));
      }
      saved := disk;
    }
  }
}
