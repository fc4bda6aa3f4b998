/**
 * The `valenbisi_raw` table and a PostgreSQL connection to it, reduced to what
 * the loaders can observe: the committed rows, the rows inserted by the open
 * transaction, and whether that transaction has been aborted by a failed
 * statement (after which psycopg2 refuses every statement until a rollback).
 */
module Table {
  import opened JsonValue

  /** A capture time (`datetime.now()`), supplied by the caller. */
  type Instant = int

  /** The `station_status` column: the strings 'OPEN' and 'CLOSED'. */
  datatype Status = Open | Closed

  /**
   * One row, in the insert column order: station_id, station_name, latitude,
   * longitude, available_bikes, available_slots, station_status,
   * total_capacity, timestamp. Columns the collector passes through from the
   * JSON record keep their JSON value.
   */
  datatype Row = Row(
    stationId: Json,
    stationName: Json,
    latitude: Json,
    longitude: Json,
    availableBikes: int,
    availableSlots: int,
    status: Status,
    totalCapacity: int,
    timestamp: Instant)

  /** True when the store accepts every row of `rows`. */
  predicate AllAdmitted(admits: Row -> bool, rows: seq<Row>)
  {
    forall k :: 0 <= k < |rows| ==> admits(rows[k])
  }

  /** The append-only table. */
  class Store {
    /** Whether an INSERT of a row satisfies the table's column types and constraints. */
    const admits: Row -> bool
    /** Committed rows, oldest first. */
    var rows: seq<Row>

    constructor (admits: Row -> bool, rows: seq<Row>)
      ensures this.admits == admits && this.rows == rows
    {
      this.admits := admits;
      this.rows := rows;
    }
  }

  class Connection {
    const store: Store
    /** Rows inserted in the open transaction and not yet committed. */
    var pending: seq<Row>
    /** A statement failed in the open transaction; only a rollback clears this. */
    var aborted: bool
    var closed: bool

    /** `psycopg2.connect(...)`: a fresh connection with no open transaction. */
    constructor Open(store: Store)
      ensures this.store == store && pending == [] && !aborted && !closed
    {
      this.store := store;
      pending := [];
      aborted := false;
      closed := false;
    }

    /** `cursor.execute(INSERT ..., row)`: one single-row insert. */
    method Execute(row: Row) returns (ok: bool)
      requires !closed
      modifies this
      ensures ok <==> !old(aborted) && store.admits(row)
      ensures pending == if ok then old(pending) + [row] else old(pending)
      ensures aborted == !ok && !closed
    {
      ok := !aborted && store.admits(row);
      if ok {
        pending := pending + [row];
      } else {
        aborted := true;
      }
    }

    /** `execute_values(cursor, INSERT ... VALUES %s, rows)`: one multi-row insert. */
    method ExecuteBatch(rows: seq<Row>) returns (ok: bool)
      requires !closed
      modifies this
      ensures ok <==> !old(aborted) && AllAdmitted(store.admits, rows)
      ensures pending == if ok then old(pending) + rows else old(pending)
      ensures aborted == !ok && !closed
    {
      ok := !aborted && AllAdmitted(store.admits, rows);
      if ok {
        pending := pending + rows;
      } else {
        aborted := true;
      }
    }

    /**
     * `conn.commit()`: the pending rows become durable, in insert order. On an
     * aborted transaction the server rolls back instead.
     */
    method Commit()
      requires !closed
      modifies this, store
      ensures store.rows == if old(aborted) then old(store.rows) else old(store.rows) + old(pending)
      ensures pending == [] && !aborted && !closed
    {
      if !aborted {
        store.rows := store.rows + pending;
      }
      pending := [];
      aborted := false;
    }

    /** `conn.rollback()`: every uncommitted insert of the transaction is discarded. */
    method Rollback()
      requires !closed
      modifies this
      ensures pending == [] && !aborted && !closed
    {
      pending := [];
      aborted := false;
    }

    /**
     * `ROLLBACK TO SAVEPOINT`: discards only the inserts made after the
     * savepoint taken when `pending` had `mark` rows.
     */
    method RollbackTo(mark: nat)
      requires !closed && mark <= |pending|
      modifies this
      ensures pending == old(pending)[..mark] && !aborted && !closed
    {
      pending := pending[..mark];
      aborted := false;
    }

    /** `conn.close()`: an open transaction ends without a commit. */
    method Close()
      modifies this
      ensures pending == [] && !aborted && closed
    {
      pending := [];
      aborted := false;
      closed := true;
    }
  }
}
