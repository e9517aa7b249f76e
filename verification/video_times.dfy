/**
 * Where each video was left: a table from video id to playback position,
 * kept under one storage key. Every operation reads the whole table, changes
 * one entry and writes the table back.
 */
module VideoTimes {
  import opened Common

  /** What the table holds for an id once read back: a finite number, or a value whose parse is not finite. */
  datatype Stored = Finite(seconds: real) | NotFinite

  type Table = map<string, Stored>

  /** `getVideoTime` on a table: 0 for a falsy id, a missing entry or a non-finite value. */
  function TimeIn(all: Table, id: Option<string>): (t: real)
    ensures !Truthy(id) ==> t == 0.0
    ensures t != 0.0 ==> Truthy(id) && id.value in all && all[id.value] == Finite(t)
  {
    if !Truthy(id) then 0.0
    else if id.value in all && all[id.value].Finite? then all[id.value].seconds
    else 0.0
  }

  /** The table after `all[id] = time`; a falsy id leaves it as it was. */
  function Put(all: Table, id: Option<string>, time: Stored): Table {
    if Truthy(id) then all[id.value := time] else all
  }

  /** The table after `delete all[id]`; a falsy id leaves it as it was. */
  function Delete(all: Table, id: Option<string>): Table {
    if Truthy(id) then all - {id.value} else all
  }

  /** After storing a finite time under a truthy id, reading that id gives the time back. */
  lemma GetAfterPut(all: Table, id: Option<string>, t: real)
    requires Truthy(id)
    ensures TimeIn(Put(all, id, Finite(t)), id) == t
  {
  }

  /** Storing a non-finite time reads back as 0. */
  lemma GetAfterPutNotFinite(all: Table, id: Option<string>)
    ensures TimeIn(Put(all, id, NotFinite), id) == 0.0
  {
  }

  /** After clearing an id it reads as 0. */
  lemma GetAfterDelete(all: Table, id: Option<string>)
    ensures TimeIn(Delete(all, id), id) == 0.0
  {
  }

  /** Storing or clearing one id leaves what every other id reads as it was. */
  lemma OtherIdsUnchanged(all: Table, id: Option<string>, time: Stored, other: Option<string>)
    requires !Truthy(id) || !Truthy(other) || other.value != id.value
    ensures TimeIn(Put(all, id, time), other) == TimeIn(all, other)
    ensures TimeIn(Delete(all, id), other) == TimeIn(all, other)
  {
  }

  /** The stored table. `None` stands for storage that cannot be read back as a table. */
  class VideoTimeStore {
    var stored: Option<Table>

    /** `readAll`: unreadable storage reads as an empty table. */
    function All(): Table
      reads this
    {
      stored.GetOr(map[])
    }

    constructor (initial: Option<Table>)
      ensures stored == initial
    {
      stored := initial;
    }

    /** `getVideoTime`. */
    method GetVideoTime(id: Option<string>) returns (t: real)
      ensures t == TimeIn(All(), id)
    {
      if !Truthy(id) {
        return 0.0;
      }
      var all := All();
      var key := id.value;
      if key in all && all[key].Finite? {
        t := all[key].seconds;
      } else {
        t := 0.0;
      }
    }

    /** `setVideoTime`: with a falsy id nothing is written. */
    method SetVideoTime(id: Option<string>, time: Stored)
      modifies this
      ensures !Truthy(id) ==> stored == old(stored)
      ensures Truthy(id) ==> stored == Some(Put(old(All()), id, time))
      ensures All() == Put(old(All()), id, time)
    {
      if !Truthy(id) {
        return;
      }
      var all := All();
      all := all[id.value := time];
      stored := Some(all);
    }

    /** `clearVideoTime`: with a falsy id nothing is written. */
    method ClearVideoTime(id: Option<string>)
      modifies this
      ensures !Truthy(id) ==> stored == old(stored)
      ensures Truthy(id) ==> stored == Some(Delete(old(All()), id))
      ensures All() == Delete(old(All()), id)
    {
      if !Truthy(id) {
        return;
      }
      var all := All();
      all := all - {id.value};
      stored := Some(all);
    }
  }
}
