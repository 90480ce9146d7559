/** The state file: `internal/state/store.go`. An update loads the file, runs a closure on the
    decoded copy, writes a temporary file and renames it over the old one. */
module Store {
  import opened Basics
  import opened Records
  import opened Transactions
  import opened Protocol

  // What reading the file gives: nothing there, an I/O error, bytes that do not decode to a
  // state of this schema, or a state.
  datatype Content = Missing | Unreadable | Corrupt | Holding(state: State)

  // The places at which an update can fail, in the order in which it passes them.
  datatype Place =
    | Directory | FileLock | Encode | DirectoryAgain | CreateTemp | TempMode | WriteTemp | SyncTemp | CloseTemp
    | Rename | FileMode | SyncDirectory | Nowhere

  // A fault strikes at one place; a crash there ends the process before anything is cleaned up.
  datatype Fault = Fault(place: Place, crash: bool)

  predicate BeforeRename(p: Place) {
    !p.FileMode? && !p.SyncDirectory? && !p.Nowhere?
  }

  // The protocol's view of an update that reached its write.
  function OutcomeOf(fault: Fault): Outcome {
    if fault.place.Nowhere? then Committed else if BeforeRename(fault.place) then Lost else CommittedError
  }

  // The state an update starts from, if the file can be read.
  function Decoded(c: Content): Option<State> {
    match c
    case Missing => Some(NEW_STATE)
    case Holding(s) => Some(s)
    case _ => None
  }

  class Store {
    var file: Content
    // The temporary file: absent, partly written, or complete.
    var temp: Option<Option<State>>

    constructor (file: Content)
      ensures this.file == file && temp.None?
    {
      this.file := file;
      temp := None;
    }

    method Load() returns (r: Result<State, string>)
      ensures r.Ok? <==> Decoded(file).Some?
      ensures r.Ok? ==> r.value == Decoded(file).value
    {
      match file {
        case Missing => r := Ok(NEW_STATE);
        case Unreadable => r := Err("read persistent state");
        case Corrupt => r := Err("persistent state is corrupt");
        case Holding(s) => r := Ok(s);
      }
    }

    // The closure `tx` sees the engine's flag as `active`. Whatever happens, the file holds the old
    // contents or the complete new state, as `OutcomeOf` says; no error means the new state is there.
    method Update(tx: Tx, active: bool, fault: Fault) returns (error: Option<string>)
      modifies this
      ensures Decoded(old(file)).None? ==> file == old(file) && error.Some?
      ensures Decoded(old(file)).Some? && Refusal(tx, Decoded(old(file)).value, active).Some? ==> file == old(file) && error.Some?
      ensures Decoded(old(file)).Some? && Refusal(tx, Decoded(old(file)).value, active).None? ==>
                && file == (if OutcomeOf(fault) != Lost then Holding(Apply(tx, Decoded(old(file)).value)) else old(file))
                && (error.None? <==> OutcomeOf(fault) == Committed)
      // Place by place: nothing before the rename reaches the file, and nothing after it is taken back.
      ensures Decoded(old(file)).Some? && Refusal(tx, Decoded(old(file)).value, active).None? ==>
                if fault.place.FileMode? || fault.place.SyncDirectory? || fault.place.Nowhere?
                then file == Holding(Apply(tx, Decoded(old(file)).value)) && (error.None? <==> fault.place.Nowhere?)
                else file == old(file) && error.Some?
      // The protocol's write is what happens to the file.
      ensures forall w: World :: Decoded(old(file)) == Some(w.disk) && w.active == active ==>
                Decoded(file) == Some(Protocol.Write(w, tx, OutcomeOf(fault)).disk)
      ensures !fault.crash ==> temp == old(temp) || temp.None?
    {
      if fault.place.Directory? {
        return Some("create state directory");
      }
      if fault.place.FileLock? {
        return Some("acquire state lock");
      }
      var current := Load();
      if current.Err? {
        return Some(current.error);
      }
      var refusal := Refusal(tx, current.value, active);
      if refusal.Some? {
        return refusal;
      }
      error := Save(Apply(tx, current.value), fault);
    }

    method Save(next: State, fault: Fault) returns (error: Option<string>)
      requires !fault.place.Directory? && !fault.place.FileLock?
      modifies this
      ensures file == if OutcomeOf(fault) != Lost then Holding(next) else old(file)
      ensures error.None? <==> OutcomeOf(fault) == Committed
      ensures !fault.crash ==> temp == old(temp) || temp.None?
    {
      if fault.place.Encode? {
        return Some("encode persistent state");
      }
      if fault.place.DirectoryAgain? {
        return Some("create state directory");
      }
      if fault.place.CreateTemp? {
        return Some("create temporary state");
      }
      temp := Some(None);
      if fault.place.TempMode? || fault.place.WriteTemp? {
        Cleanup(fault);
        return Some("write temporary state");
      }
      temp := Some(Some(next));
      if fault.place.SyncTemp? || fault.place.CloseTemp? || fault.place.Rename? {
        Cleanup(fault);
        return Some("replace persistent state");
      }
      file, temp := Holding(temp.value.value), None;
      if fault.place.FileMode? {
        return Some("set persistent state permissions");
      }
      if fault.place.SyncDirectory? {
        return Some("sync state directory");
      }
      return None;
    }

    method Cleanup(fault: Fault)
      modifies `temp
      ensures temp == if fault.crash then old(temp) else None
    {
      if !fault.crash {
        temp := None;
      }
    }
  }
}
