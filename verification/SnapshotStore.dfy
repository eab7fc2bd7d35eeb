/**
 The single versioned row in which every platform-api replica saves its store, and the
 adapter that writes it by compare-and-set on the version (store-persistence.ts).
 */
module SnapshotStore {
  import opened Common

  /** A mutation of the store, named by a token. */
  type Mutation = nat

  /** A store's contents, as the mutations applied to it in order; a snapshot is such a list. */
  type History = seq<Mutation>

  datatype Row = Row(snapshot: History, version: nat)

  /** What the INSERT ... ON CONFLICT DO UPDATE ... WHERE version = $2 statement does to the row, and the
      version it returns, if any.  With no row the insert happens whatever version was expected. */
  function Upsert(row: Option<Row>, snapshot: History, expected: nat): (Option<Row>, Option<nat>) {
    match row
    case None => (Some(Row(snapshot, 1)), Some(1))
    case Some(current) =>
      if current.version == expected
      then (Some(Row(snapshot, current.version + 1)), Some(current.version + 1))
      else (row, None)
  }

  /** The table: one statement is one atomic step. */
  class SnapshotTable {
    var row: Option<Row>

    constructor ()
      ensures row == None
    {
      row := None;
    }

    method Execute(snapshot: History, expected: nat) returns (version: Option<nat>)
      modifies this
      ensures (row, version) == Upsert(old(row), snapshot, expected)
    {
      if row.None? {
        row, version := Some(Row(snapshot, 1)), Some(1);
      } else if row.value.version == expected {
        var next := row.value.version + 1;
        row, version := Some(Row(snapshot, next)), Some(next);
      } else {
        version := None;
      }
    }
  }

  /** PostgresPlatformStorePersistence. `save` awaits once, so it is two atomic parts around the statement. */
  class StorePersistence {
    const table: SnapshotTable
    var version: nat

    constructor (table: SnapshotTable)
      ensures this.table == table && version == 0
    {
      this.table, version := table, 0;
    }

    method Load() returns (snapshot: Option<History>)
      modifies this
      ensures table.row.None? ==> snapshot == None && version == 0
      ensures table.row.Some? ==> snapshot == Some(table.row.value.snapshot) && version == table.row.value.version
    {
      if table.row.None? {
        version, snapshot := 0, None;
      } else {
        version, snapshot := table.row.value.version, Some(table.row.value.snapshot);
      }
    }

    /** The part of `save` after the reply: a refused write keeps the old version and reports failure. */
    method FinishSave(reply: Option<nat>) returns (saved: bool)
      modifies this
      ensures saved == reply.Some?
      ensures version == if reply.Some? then reply.value else old(version)
    {
      saved := reply.Some?;
      if saved {
        version := reply.value;
      }
    }

    /** A whole `save` with nothing in between. It succeeds exactly when no other writer got in first. */
    method Save(snapshot: History) returns (saved: bool)
      modifies this, table
      ensures saved <==> old(table.row).None? || old(table.row).value.version == old(version)
      ensures saved ==> table.row == Some(Row(snapshot, version))
      ensures saved && old(table.row).Some? ==> version == old(version) + 1
      ensures !saved ==> table.row == old(table.row) && version == old(version)
    {
      var reply := table.Execute(snapshot, version);
      saved := FinishSave(reply);
    }
  }
}
