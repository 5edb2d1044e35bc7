/**
 * The message table `NeonSecurityTask_messages` (app.py, `ensure_table`,
 * `insert_message`, `fetch_messages`), modelled as the state of a database
 * object rather than through SQL text.
 */
module Store {
  import opened Wrappers

  /** A `TIMESTAMPTZ` value; only the store creates them and only a formatter reads them. */
  type Timestamp = int

  /** One row: `id SERIAL PRIMARY KEY`, `message TEXT NOT NULL`, `created_at TIMESTAMPTZ DEFAULT NOW()`. */
  datatype Row = Row(id: int, message: string, createdAt: Timestamp)

  /** The statement fails because the table has not been created (an undefined table). */
  datatype StoreError = UndefinedTable

  /** The limit `do_GET` passes to `fetch_messages`. */
  const HandlerFetchLimit: nat := 20

  /** The default limit of `fetch_messages`. */
  const DefaultFetchLimit: nat := 10

  ghost predicate IdsIncreasing(rows: seq<Row>) {
    forall i, j :: 0 <= i < j < |rows| ==> rows[i].id < rows[j].id
  }

  ghost predicate IdsDecreasing(rows: seq<Row>) {
    forall i, j :: 0 <= i < j < |rows| ==> rows[i].id > rows[j].id
  }

  function Min(a: nat, b: nat): nat {
    if a < b then a else b
  }

  /**
   * `ORDER BY id DESC LIMIT limit` over rows kept in insertion order: the last
   * `limit` rows, newest first.
   */
  function Newest(rows: seq<Row>, limit: nat): (r: seq<Row>)
    ensures |r| == Min(limit, |rows|)
    ensures forall j :: 0 <= j < |r| ==> r[j] == rows[|rows| - 1 - j]
    decreases limit
  {
    if limit == 0 || rows == [] then []
    else [rows[|rows| - 1]] + Newest(rows[..|rows| - 1], limit - 1)
  }

  /** Every fetched row is in the table, and every row left out has a lower id than every row fetched. */
  lemma NewestAreTop(rows: seq<Row>, limit: nat)
    requires IdsIncreasing(rows)
    ensures forall j :: 0 <= j < |Newest(rows, limit)| ==> Newest(rows, limit)[j] in rows
    ensures forall i, j :: 0 <= i < |rows| - |Newest(rows, limit)| && 0 <= j < |Newest(rows, limit)| ==>
      rows[i].id < Newest(rows, limit)[j].id
  {
    var r := Newest(rows, limit);
    forall j | 0 <= j < |r| ensures r[j] in rows {
      assert r[j] == rows[|rows| - 1 - j];
    }
  }

  /** After an insert, the fetch returns the inserted row first, then what it returned before, one fewer. */
  lemma NewestAfterInsert(rows: seq<Row>, row: Row, limit: nat)
    requires limit >= 1
    ensures Newest(rows + [row], limit) == [row] + Newest(rows, limit - 1)
  {
    assert (rows + [row])[..|rows|] == rows;
  }

  class Database {
    /** Whether `CREATE TABLE IF NOT EXISTS` has run. */
    var created: bool
    /** The table's rows, in insertion order. */
    var rows: seq<Row>
    /** The next value of the `SERIAL` sequence behind `id`. */
    var nextId: int

    ghost predicate Valid()
      reads this
    {
      && nextId >= 1
      && (!created ==> rows == [] && nextId == 1)
      && IdsIncreasing(rows)
      && forall i :: 0 <= i < |rows| ==> 1 <= rows[i].id < nextId
    }

    /** A database in which the table does not exist yet. */
    constructor ()
      ensures Valid() && !created && rows == [] && nextId == 1
    {
      created, rows, nextId := false, [], 1;
    }

    /** `ensure_table`: creates the table if absent; idempotent, never touches rows. */
    method EnsureTable()
      requires Valid()
      modifies this
      ensures Valid() && created
      ensures rows == old(rows) && nextId == old(nextId)
    {
      created := true;
    }

    /**
     * `insert_message`: `INSERT ... RETURNING id, created_at`. The store assigns
     * the next serial id and the current time.
     */
    method Insert(message: string, now: Timestamp) returns (r: Result<Row, StoreError>)
      requires Valid()
      modifies this
      ensures Valid()
      ensures !old(created) ==> r == Err(UndefinedTable) && rows == old(rows) && nextId == old(nextId) && !created
      ensures old(created) ==> && r == Ok(Row(old(nextId), message, now))
                               && rows == old(rows) + [r.value]
                               && nextId == old(nextId) + 1
                               && created
      ensures r.Ok? ==> forall i :: 0 <= i < |old(rows)| ==> old(rows)[i].id < r.value.id
    {
      if !created {
        return Err(UndefinedTable);
      }
      var row := Row(nextId, message, now);
      rows := rows + [row];
      nextId := nextId + 1;
      r := Ok(row);
    }

    /**
     * `fetch_messages`: `SELECT ... ORDER BY id DESC LIMIT limit`. At most
     * `limit` rows of the table, highest id first, and no row skipped.
     */
    method Fetch(limit: nat := DefaultFetchLimit) returns (r: Result<seq<Row>, StoreError>)
      requires Valid()
      ensures r.Err? <==> !created
      ensures r.Ok? ==> r.value == Newest(rows, limit)
      ensures r.Ok? ==> |r.value| == Min(limit, |rows|)
      ensures r.Ok? ==> IdsDecreasing(r.value)
      ensures r.Ok? ==> forall j :: 0 <= j < |r.value| ==> r.value[j] in rows
      ensures r.Ok? ==> forall i, j :: 0 <= i < |rows| - |r.value| && 0 <= j < |r.value| ==> rows[i].id < r.value[j].id
    {
      if !created {
        return Err(UndefinedTable);
      }
      NewestAreTop(rows, limit);
      r := Ok(Newest(rows, limit));
    }
  }
}
