/**
 * An abstract SQLite connection and result cursor. What the engine does with a statement is
 * given up front: whether an update statement succeeds, what a query answers, and how the last
 * inserted row id moves. The connection records what was done to it, in order.
 */
module Database {
  import opened Results

  datatype SqlValue = SqlInt(i: int) | SqlText(t: string) | SqlNull

  /** A result row: column name to value. */
  type Row = map<string, SqlValue>

  /** What was done to a connection. */
  datatype Event =
    | Opened
    | Began
    | Executed(sql: string, ok: bool)
    | Queried(sql: string)
    | RolledBack
    | Committed
    | Closed

  /** The events of running update statements that all succeed, in order. */
  function Executions(statements: seq<string>): (r: seq<Event>)
    ensures |r| == |statements|
    ensures forall i :: 0 <= i < |r| ==> r[i] == Executed(statements[i], true)
  {
    if statements == [] then [] else [Executed(statements[0], true)] + Executions(statements[1..])
  }

  /** The changing part of a connection, as a value. */
  datatype ConnState = ConnState(isOpen: bool, inTransaction: bool, committed: seq<string>,
                                 pending: seq<string>, lastRowId: int, log: seq<Event>)

  class ResultSet {
    const rows: seq<Row>
    /** The row the cursor is on; -1 before the first call of `Next`. */
    var position: int

    constructor (rows: seq<Row>)
      ensures this.rows == rows && position == -1
    {
      this.rows := rows;
      position := -1;
    }

    /** Moves to the next row; tells whether there is one. */
    method Next() returns (more: bool)
      requires position < |rows|
      modifies this
      ensures position == old(position) + 1
      ensures more <==> position < |rows|
    {
      position := position + 1;
      more := position < |rows|;
    }

    /** The row the cursor is on. */
    method ResultDictionary() returns (row: Row)
      requires 0 <= position < |rows|
      ensures row == rows[position]
    {
      row := rows[position];
    }
  }

  class Connection {
    /**
     * Whether the engine accepts an update statement, given the statements already in effect:
     * those committed and those pending in the open transaction, in order.
     */
    const accepts: (seq<string>, string) -> bool
    /** The rows a query answers, or the domain of the error it raises. */
    const answers: string -> Result<seq<Row>, string>
    /**
     * Whether a transaction can begin, given the statements in effect; when it cannot (the file
     * is locked, or the handle did not open), the handle stays in autocommit mode.
     */
    const begins: seq<string> -> bool
    /** Whether a commit succeeds, given the statements in effect once it is done. */
    const commits: seq<string> -> bool
    /** The last inserted row id after a statement succeeds, from the one before. */
    const rowIdAfter: (int, string) -> int

    var isOpen: bool
    var inTransaction: bool
    /** Statements made permanent. */
    var committed: seq<string>
    /** Statements of the open transaction. */
    var pending: seq<string>
    var lastRowId: int
    var log: seq<Event>

    function State(): ConnState
      reads this
    {
      ConnState(isOpen, inTransaction, committed, pending, lastRowId, log)
    }

    constructor (accepts: (seq<string>, string) -> bool, answers: string -> Result<seq<Row>, string>,
                 begins: seq<string> -> bool, commits: seq<string> -> bool,
                 rowIdAfter: (int, string) -> int)
      ensures this.accepts == accepts && this.answers == answers && this.begins == begins
      ensures this.commits == commits && this.rowIdAfter == rowIdAfter
      ensures !isOpen && !inTransaction && committed == [] && pending == [] && lastRowId == 0
      ensures log == []
    {
      this.accepts, this.answers, this.rowIdAfter := accepts, answers, rowIdAfter;
      this.begins, this.commits := begins, commits;
      isOpen, inTransaction, committed, pending, lastRowId, log := false, false, [], [], 0, [];
    }

    /**
     * Opens a new handle on the database file: what was committed to the file stays, while the
     * handle starts with no transaction and a last inserted row id of 0.
     */
    method Open()
      modifies this
      ensures isOpen && !inTransaction && pending == [] && lastRowId == 0
      ensures committed == old(committed) && log == old(log) + [Opened]
    {
      isOpen, inTransaction, pending, lastRowId := true, false, [], 0;
      log := log + [Opened];
    }

    /**
     * Begins a transaction when there is none yet and the engine lets it; otherwise the handle
     * stays in the mode it was in.
     */
    method BeginTransaction() returns (ok: bool)
      modifies this
      ensures ok == (!old(inTransaction) && begins(old(committed))) && log == old(log) + [Began]
      ensures inTransaction == (old(inTransaction) || ok)
      ensures isOpen == old(isOpen) && committed == old(committed) && pending == old(pending)
      ensures lastRowId == old(lastRowId)
    {
      ok := !inTransaction && begins(committed);
      inTransaction := inTransaction || ok;
      log := log + [Began];
    }

    /**
     * Runs an update statement: the engine judges it against the statements in effect, and
     * inside a transaction it waits for the commit.
     */
    method ExecuteUpdate(sql: string) returns (ok: bool)
      modifies this
      ensures ok == accepts(old(committed + pending), sql) && log == old(log) + [Executed(sql, ok)]
      ensures ok && inTransaction ==> pending == old(pending) + [sql] && committed == old(committed)
      ensures ok && !inTransaction ==> committed == old(committed) + [sql] && pending == old(pending)
      ensures !ok ==> pending == old(pending) && committed == old(committed)
      ensures lastRowId == if ok then rowIdAfter(old(lastRowId), sql) else old(lastRowId)
      ensures isOpen == old(isOpen) && inTransaction == old(inTransaction)
    {
      ok := accepts(committed + pending, sql);
      if ok {
        if inTransaction {
          pending := pending + [sql];
        } else {
          committed := committed + [sql];
        }
        lastRowId := rowIdAfter(lastRowId, sql);
      }
      log := log + [Executed(sql, ok)];
    }

    method Rollback()
      modifies this
      ensures !inTransaction && pending == [] && log == old(log) + [RolledBack]
      ensures isOpen == old(isOpen) && committed == old(committed) && lastRowId == old(lastRowId)
    {
      inTransaction := false;
      pending := [];
      log := log + [RolledBack];
    }

    /**
     * Makes the pending statements permanent when there is a transaction and the engine lets the
     * commit through; otherwise the handle stays as it was.
     */
    method Commit() returns (ok: bool)
      modifies this
      ensures ok == (old(inTransaction) && commits(old(committed + pending))) && log == old(log) + [Committed]
      ensures ok ==> !inTransaction && pending == [] && committed == old(committed) + old(pending)
      ensures !ok ==> inTransaction == old(inTransaction) && pending == old(pending) && committed == old(committed)
      ensures isOpen == old(isOpen) && lastRowId == old(lastRowId)
    {
      ok := inTransaction && commits(committed + pending);
      if ok {
        committed := committed + pending;
        inTransaction := false;
        pending := [];
      }
      log := log + [Committed];
    }

    /** Closing drops a transaction left open. */
    method Close()
      modifies this
      ensures !isOpen && !inTransaction && pending == [] && log == old(log) + [Closed]
      ensures committed == old(committed) && lastRowId == old(lastRowId)
    {
      isOpen, inTransaction, pending := false, false, [];
      log := log + [Closed];
    }

    method LastInsertRowId() returns (id: int)
      ensures id == lastRowId
    {
      id := lastRowId;
    }

    /** Runs a query: a cursor over its rows, or the error it raises. */
    method ExecuteQuery(sql: string) returns (r: Result<ResultSet, string>)
      modifies this
      ensures log == old(log) + [Queried(sql)]
      ensures isOpen == old(isOpen) && inTransaction == old(inTransaction)
      ensures committed == old(committed) && pending == old(pending) && lastRowId == old(lastRowId)
      ensures answers(sql).Err? ==> r == Err(answers(sql).error)
      ensures answers(sql).Ok? ==> r.Ok? && fresh(r.value)
                                   && r.value.rows == answers(sql).value && r.value.position == -1
    {
      log := log + [Queried(sql)];
      match answers(sql)
      case Err(domain) =>
        r := Err(domain);
      case Ok(rows) =>
        var cursor := new ResultSet(rows);
        r := Ok(cursor);
    }
  }
}
