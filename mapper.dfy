/**
 * The mapper: a registry of database descriptions filled from a configuration property list,
 * the update flow (every statement of an id in one transaction) and the select flows (the
 * first statement of an id, as a list of records or as the first record only).
 *
 * Completion handlers are modelled by the value each flow returns: what the handler receives,
 * that it is never called, or that the process traps on a forced unwrap or cast.
 */
module Mapper {
  import opened Results
  import opened Text
  import opened Templater
  import opened Plists
  import opened Models
  import opened MapperErrors
  import opened Database

  // The three fixed patterns, as predicates on the expanded statement.

  /** The alternatives of `^(delete|DELETE|insert|INSERT||update|UPDATE)(.*)`; note the empty one. */
  const UpdateVerbs: seq<string> := ["delete", "DELETE", "insert", "INSERT", "", "update", "UPDATE"]

  /** The update pattern, matched ignoring case at the start of the text; `(.*)` matches anything. */
  predicate MatchesUpdatePattern(s: string) {
    exists i | 0 <= i < |UpdateVerbs| :: StartsWithIgnoringCase(s, UpdateVerbs[i])
  }

  /** The alternatives of `^(select|SELECT)\s`. */
  const SelectVerbs: seq<string> := ["select", "SELECT"]

  /** The select pattern, matched ignoring case: a verb at the start, then one `\s` character. */
  predicate MatchesSelectPattern(s: string) {
    exists i | 0 <= i < |SelectVerbs| ::
      StartsWithIgnoringCase(s, SelectVerbs[i]) && |SelectVerbs[i]| < |s| && IsRegexSpace(s[|SelectVerbs[i]|])
  }

  /** The empty alternative matches at the start of any text: every statement passes the update filter. */
  lemma UpdatePatternMatchesEverything(s: string)
    ensures MatchesUpdatePattern(s)
  {
    assert StartsWithIgnoringCase(s, UpdateVerbs[4]);
  }

  /** The select filter accepts exactly the texts that begin with "select" in any case and then a space. */
  lemma SelectPatternIsSelectThenSpace(s: string)
    ensures MatchesSelectPattern(s) <==> |s| > 6 && LowerAll(s[..6]) == LowerAll("select") && IsRegexSpace(s[6])
  {
    assert LowerAll(SelectVerbs[1]) == LowerAll(SelectVerbs[0]) by {
      assert forall i :: 0 <= i < 6 ==> Lower(SelectVerbs[1][i]) == SelectVerbs[0][i];
    }
    if |s| > 6 && LowerAll(s[..6]) == LowerAll("select") && IsRegexSpace(s[6]) {
      assert StartsWithIgnoringCase(s, SelectVerbs[0]);
    }
  }

  // Statement lists.

  /** Each statement expanded with the parameters. */
  function Expanded(templates: seq<string>, param: Option<Params>): (r: seq<string>)
    ensures |r| == |templates|
  {
    if templates == [] then []
    else Expanded(templates[..|templates| - 1], param) + [Expand(templates[|templates| - 1], param)]
  }

  /** The i-th expanded statement is the i-th template expanded. */
  lemma {:induction false} ExpandedAt(templates: seq<string>, param: Option<Params>, i: nat)
    requires i < |templates|
    ensures Expanded(templates, param)[i] == Expand(templates[i], param)
  {
    var init := templates[..|templates| - 1];
    if i < |init| {
      ExpandedAt(init, param, i);
    }
  }

  /**
   * Where the first statement the engine rejects is, each judged after `prior` and the statements
   * before it; the length when it accepts them all.
   */
  function FirstRejected(prior: seq<string>, statements: seq<string>, accepts: (seq<string>, string) -> bool): (k: nat)
    ensures k <= |statements|
    ensures forall i :: 0 <= i < k ==> accepts(prior + statements[..i], statements[i])
    ensures k < |statements| ==> !accepts(prior + statements[..k], statements[k])
    decreases |statements|
  {
    if statements == [] then 0
    else if !accepts(prior, statements[0]) then
      assert prior + statements[..0] == prior;
      0
    else
      var rest := statements[1..];
      var k := 1 + FirstRejected(prior + [statements[0]], rest, accepts);
      assert forall i :: 1 <= i <= |statements| ==> prior + statements[..i] == prior + [statements[0]] + rest[..i - 1] by {
        forall i | 1 <= i <= |statements|
          ensures prior + statements[..i] == prior + [statements[0]] + rest[..i - 1]
        {
          assert statements[..i] == [statements[0]] + rest[..i - 1];
        }
      }
      assert prior + statements[..0] == prior;
      k
  }

  /** The last inserted row id after each of the statements has run. */
  function RowIdAfterAll(id: int, statements: seq<string>, rowIdAfter: (int, string) -> int): int {
    if statements == [] then id
    else rowIdAfter(RowIdAfterAll(id, statements[..|statements| - 1], rowIdAfter), statements[|statements| - 1])
  }

  /**
   * Statements that insert no row (updates and deletes) leave the row id where they found it, so
   * on a new handle their update reports 0, whatever earlier updates inserted.
   */
  lemma {:induction false} RowIdStaysWithoutInserts(id: int, statements: seq<string>, rowIdAfter: (int, string) -> int)
    requires forall n, i :: 0 <= i < |statements| ==> rowIdAfter(n, statements[i]) == n
    ensures RowIdAfterAll(id, statements, rowIdAfter) == id
    decreases |statements|
  {
    if statements != [] {
      var init := statements[..|statements| - 1];
      assert forall n, i :: 0 <= i < |init| ==> rowIdAfter(n, init[i]) == n by {
        forall n, i | 0 <= i < |init| ensures rowIdAfter(n, init[i]) == n {
          assert init[i] == statements[i];
        }
      }
      RowIdStaysWithoutInserts(id, init, rowIdAfter);
    }
  }

  /** What an update does to its connection, given where the first rejected statement is. */
  function UpdateTranscript(statements: seq<string>, k: nat): seq<Event>
    requires k <= |statements|
  {
    [Opened, Began] + Executions(statements[..k])
    + (if k < |statements| then [Executed(statements[k], false), RolledBack, Closed] else [Committed, Closed])
  }

  /**
   * What an update's transaction leaves behind, from the connection's state before it was
   * opened, with `k` the first statement the engine rejects. The statements before it ran in
   * order, and the k-th was rejected, rolled back and reported; or all ran and the commit was
   * requested. When the transaction began, the statements become permanent only when the commit
   * goes through. When it did not begin, each accepted statement became permanent as it ran, and
   * the rollback undoes none of them. Success is reported either way once all have run. The
   * connection ends closed. A new handle starts with a row id of 0, so the reported row id is the
   * one the statements that ran leave from 0.
   */
  ghost predicate Transacted(es: seq<string>, accepts: (seq<string>, string) -> bool, begins: seq<string> -> bool,
                             commits: seq<string> -> bool, rowIdAfter: (int, string) -> int,
                             before: ConnState, after: ConnState, outcome: UpdateOutcome)
  {
    var k := FirstRejected(before.committed, es, accepts);
    && after.log == before.log + UpdateTranscript(es, k)
    && after.committed == before.committed + (if !begins(before.committed) then es[..k]
                                              else if k == |es| && commits(before.committed + es) then es
                                              else [])
    && after.lastRowId == RowIdAfterAll(0, es[..k], rowIdAfter)
    && !after.isOpen && !after.inTransaction && after.pending == []
    && outcome == if k < |es|
                  then Completed(false, Some(MakeError("Invalid query: " + es[k], ErrorCode.InvalidSqlQuery)), 0)
                  else Completed(true, None, after.lastRowId)
  }

  /** Proof helper: regroups a concatenation of three sequences. */
  lemma AppendAssociates<X>(a: seq<X>, b: seq<X>, c: seq<X>)
    ensures a + b + c == a + (b + c)
  {
  }

  /** Proof helper: appending three elements one by one appends their sequence. */
  lemma AppendThree<X>(a: seq<X>, x: X, y: X, z: X)
    ensures a + [x] + [y] + [z] == a + [x, y, z]
  {
  }

  /**
   * The connection after opening a new handle, asking for a transaction and running the first `i`
   * statements successfully: they wait in the transaction when it `begun`, and are permanent
   * otherwise.
   */
  function Running(before: ConnState, es: seq<string>, i: nat, begun: bool, rowIdAfter: (int, string) -> int): ConnState
    requires i <= |es|
  {
    ConnState(true, begun, if begun then before.committed else before.committed + es[..i],
              if begun then es[..i] else [], RowIdAfterAll(0, es[..i], rowIdAfter),
              before.log + ([Opened, Began] + Executions(es[..i])))
  }

  /**
   * One more successful statement: it joins the transaction, or the permanent statements when
   * there is none, and the log, and it moves the row id.
   */
  lemma RunningStep(before: ConnState, es: seq<string>, i: nat, begun: bool, rowIdAfter: (int, string) -> int)
    requires i < |es|
    ensures var s := Running(before, es, i, begun, rowIdAfter);
            s.committed + s.pending == before.committed + es[..i]
    ensures var s := Running(before, es, i, begun, rowIdAfter);
            Running(before, es, i + 1, begun, rowIdAfter)
            == s.(committed := if begun then s.committed else s.committed + [es[i]],
                  pending := if begun then s.pending + [es[i]] else s.pending,
                  lastRowId := rowIdAfter(s.lastRowId, es[i]), log := s.log + [Executed(es[i], true)])
  {
    assert es[..i + 1] == es[..i] + [es[i]];
    assert es[..i + 1][..i] == es[..i];
    assert Executions(es[..i + 1]) == Executions(es[..i]) + [Executed(es[i], true)];
    AppendAssociates(before.committed, es[..i], [es[i]]);
  }

  /** A rejected statement, rolled back and closed, ends the transaction as Transacted says. */
  lemma RejectedTransaction(before: ConnState, es: seq<string>, accepts: (seq<string>, string) -> bool,
                            begins: seq<string> -> bool, commits: seq<string> -> bool,
                            rowIdAfter: (int, string) -> int, k: nat)
    requires k == FirstRejected(before.committed, es, accepts) && k < |es|
    ensures var s := Running(before, es, k, begins(before.committed), rowIdAfter);
            Transacted(es, accepts, begins, commits, rowIdAfter, before,
                       s.(isOpen := false, inTransaction := false, pending := [],
                          log := s.log + [Executed(es[k], false)] + [RolledBack] + [Closed]),
                       Completed(false, Some(MakeError("Invalid query: " + es[k], ErrorCode.InvalidSqlQuery)), 0))
  {
    var s := Running(before, es, k, begins(before.committed), rowIdAfter);
    RejectLog(before, es, k, begins(before.committed), rowIdAfter);
    assert s.committed == before.committed + (if !begins(before.committed) then es[..k] else []);
  }

  /**
   * With every statement accepted, committing and closing ends the transaction as Transacted
   * says: in a transaction the statements are permanent when the commit goes through and dropped
   * by the close when it does not; without one they already are. Success is reported with the
   * row id either way.
   */
  lemma CommittedTransaction(before: ConnState, es: seq<string>, accepts: (seq<string>, string) -> bool,
                             begins: seq<string> -> bool, commits: seq<string> -> bool,
                             rowIdAfter: (int, string) -> int)
    requires FirstRejected(before.committed, es, accepts) == |es|
    ensures var s := Running(before, es, |es|, begins(before.committed), rowIdAfter);
            Transacted(es, accepts, begins, commits, rowIdAfter, before,
                       s.(isOpen := false, inTransaction := false,
                          committed := if s.inTransaction && commits(s.committed + s.pending)
                                       then s.committed + s.pending else s.committed,
                          pending := [], log := s.log + [Committed] + [Closed]),
                       Completed(true, None, s.lastRowId))
  {
    var s := Running(before, es, |es|, begins(before.committed), rowIdAfter);
    assert es[..|es|] == es;
    CommitLog(before, es, begins(before.committed), rowIdAfter);
    assert s.inTransaction ==> s.committed + s.pending == before.committed + es;
    assert s.lastRowId == RowIdAfterAll(0, es[..FirstRejected(before.committed, es, accepts)], rowIdAfter);
  }

  lemma RejectLog(before: ConnState, es: seq<string>, k: nat, begun: bool, rowIdAfter: (int, string) -> int)
    requires k < |es|
    ensures Running(before, es, k, begun, rowIdAfter).log + [Executed(es[k], false)] + [RolledBack] + [Closed]
            == before.log + UpdateTranscript(es, k)
  {
    var s := Running(before, es, k, begun, rowIdAfter);
    var ran := [Opened, Began] + Executions(es[..k]);
    var tail := [Executed(es[k], false), RolledBack, Closed];
    assert UpdateTranscript(es, k) == ran + tail;
    calc {
      s.log + [Executed(es[k], false)] + [RolledBack] + [Closed];
      { AppendThree(s.log, Executed(es[k], false), RolledBack, Closed); }
      (before.log + ran) + tail;
      { AppendAssociates(before.log, ran, tail); }
      before.log + UpdateTranscript(es, k);
    }
  }

  lemma CommitLog(before: ConnState, es: seq<string>, begun: bool, rowIdAfter: (int, string) -> int)
    ensures Running(before, es, |es|, begun, rowIdAfter).log + [Committed] + [Closed]
            == before.log + UpdateTranscript(es, |es|)
  {
    var s := Running(before, es, |es|, begun, rowIdAfter);
    assert es[..|es|] == es;
    var ran := [Opened, Began] + Executions(es);
    var tail := [Committed, Closed];
    assert UpdateTranscript(es, |es|) == ran + tail;
    calc {
      s.log + [Committed] + [Closed];
      { assert s.log + [Committed] + [Closed] == s.log + tail; }
      (before.log + ran) + tail;
      { AppendAssociates(before.log, ran, tail); }
      before.log + UpdateTranscript(es, |es|);
    }
  }

  // Connections.

  /**
   * How the database file of a description is reached: seeding it from the bundle throws, the
   * seed file is missing from the bundle (a forced unwrap), no connection can be made, or a
   * connection is made. When the file is already in place only the last two arise.
   */
  datatype Acquisition = CopyFails(domain: string) | MissingSource | NoHandle | Handle(conn: Connection)

  /** The result of getting a description's database: open, absent, thrown, or a trap. */
  datatype CurrentDb = DbReady(conn: Connection) | DbNone | DbThrew(domain: string) | DbTrap

  /** A description without a file path traps before anything else; otherwise it is as acquired. */
  function CurrentDbOf(dbFilePath: Option<string>, acq: Acquisition): (r: CurrentDb)
    ensures r.DbReady? <==> dbFilePath.Some? && acq.Handle?
    ensures r.DbReady? ==> r.conn == acq.conn
    ensures dbFilePath.None? ==> r.DbTrap?
  {
    if dbFilePath.None? then DbTrap
    else match acq
      case CopyFails(d) => DbThrew(d)
      case MissingSource => DbTrap
      case NoHandle => DbNone
      case Handle(c) => DbReady(c)
  }

  // Errors as the completion handlers receive them.

  /** The list select's mapping of a thrown error: a specific code per case, `Unknown` otherwise. */
  function ListError(t: Thrown): MapperError {
    match t
    case Mapper(DoeseNotExistSqlId(s)) => MakeError("sqlId " + s + " does not exist!", ErrorCode.DoeseNotExistSqlId)
    case Mapper(DoeseNotExistDbName(n)) => MakeError("dbName " + n + " does not exist!", ErrorCode.DoeseNotExistDbName)
    case Mapper(InvalidSqlQuery(q)) => MakeError("Invalid query: " + q, ErrorCode.InvalidSqlQuery)
    case _ => MakeError(DomainOf(t), ErrorCode.Unknown)
  }

  /** The single select's mapping: every error is `Unknown`, with the error's domain. */
  function OneError(t: Thrown): MapperError {
    MakeError(DomainOf(t), ErrorCode.Unknown)
  }

  /** The list select reports a mapper error under the code of its kind, and any other as `Unknown`. */
  lemma ListErrorCodes(t: Thrown)
    ensures t.Mapper? ==> FromRawValue(ListError(t).code) == Some(KindOf(t.error))
    ensures t.Engine? ==> ListError(t) == MapperError(t.domain, 1)
  {
    match t
    case Mapper(Unknown) =>
    case Mapper(DoeseNotExistSqlId(_)) =>
    case Mapper(DoeseNotExistDbName(_)) =>
    case Mapper(InvalidSqlQuery(_)) =>
    case Engine(_) =>
  }

  /** The single select reports every error with code 1, whatever its kind. */
  lemma OneErrorIsAlwaysUnknown(t: Thrown)
    ensures OneError(t).code == 1
    ensures t.Engine? ==> OneError(t).domain == t.domain
  {
    RawValueRoundTrip(ErrorCode.Unknown, ErrorCode.Unknown);
  }

  // Outcomes.

  datatype UpdateOutcome =
    | Completed(success: bool, error: Option<MapperError>, lastInsertRowId: int)
    | NoCompletion
    | Trapped

  /** What the private select finds, as a specification. */
  datatype Selection =
    | Found(query: string, rows: seq<Row>)
    | NotSelected
    | SelectFailed(thrown: Thrown)
    | QueryFailed(query: string, domain: string)
    | SelectTrap

  /** What the private select returns: a cursor and its connection, an error, or a trap. */
  datatype SelectResult = Selected(cursor: Option<ResultSet>, db: Option<Connection>) | Threw(thrown: Thrown) | SelectTrapped

  datatype ListOutcome<T> = ListCompleted(result: Option<seq<T>>, error: Option<MapperError>) | ListTrapped

  datatype OneOutcome<T> = OneCompleted(result: Option<T>, error: Option<MapperError>) | OneTrapped

  /** The records made from rows, in cursor order. */
  function Records<T>(rows: seq<Row>, fromRow: Row -> T): (r: seq<T>)
    ensures |r| == |rows| && forall i :: 0 <= i < |rows| ==> r[i] == fromRow(rows[i])
  {
    seq(|rows|, i requires 0 <= i < |rows| => fromRow(rows[i]))
  }

  /**
   * What running an expanded statement as a select gives: nothing unless it is a select; then,
   * as the description's database is reached, the rows it answers or the error it raises.
   */
  function SelectionOf(query: string, dbFilePath: Option<string>, acq: Acquisition): Selection {
    if !MatchesSelectPattern(query) then NotSelected
    else match CurrentDbOf(dbFilePath, acq)
      case DbTrap => SelectTrap
      case DbNone => NotSelected
      case DbThrew(d) => SelectFailed(Engine(d))
      case DbReady(c) =>
        match c.answers(query)
        case Err(d) => QueryFailed(query, d)
        case Ok(rows) => Found(query, rows)
  }

  /** The state of the acquired connection; a fixed idle state when there is none. */
  function StateOf(acq: Acquisition): ConnState
    reads if acq.Handle? then {acq.conn} else {}
  {
    if acq.Handle? then acq.conn.State() else ConnState(false, false, [], [], 0, [])
  }

  /**
   * The connection state after opening a new handle on the file and running a query: what was
   * committed stays, and the handle has no transaction and a row id of 0.
   */
  function AfterQuery(before: ConnState, query: string): ConnState {
    before.(isOpen := true, inTransaction := false, pending := [], lastRowId := 0,
            log := before.log + [Opened, Queried(query)])
  }

  /** The connection state after opening a new handle, running a query and closing it. */
  function AfterQueryAndClose(before: ConnState, query: string): ConnState {
    before.(isOpen := false, inTransaction := false, pending := [], lastRowId := 0,
            log := before.log + [Opened, Queried(query), Closed])
  }

  /**
   * How the private select's result and the connection follow from what it finds: a cursor at
   * the start of the answer on a connection left open; nothing; the error; or a trap. The
   * connection is untouched unless a query was run, and a failed query leaves it open.
   */
  ghost predicate Delivered(sel: Selection, r: SelectResult, acq: Acquisition, before: ConnState)
    reads if acq.Handle? then {acq.conn} else {}
    reads if r.Selected? && r.cursor.Some? then {r.cursor.value} else {}
  {
    match sel
    case Found(q, rows) =>
      && acq.Handle? && r.Selected? && r.db == Some(acq.conn) && r.cursor.Some?
      && r.cursor.value.rows == rows && r.cursor.value.position == -1
      && StateOf(acq) == AfterQuery(before, q)
    case NotSelected => r == Selected(None, None) && StateOf(acq) == before
    case SelectFailed(t) => r == Threw(t) && StateOf(acq) == before
    case QueryFailed(q, d) => acq.Handle? && r == Threw(Engine(d)) && StateOf(acq) == AfterQuery(before, q)
    case SelectTrap => r == SelectTrapped && StateOf(acq) == before
  }

  /**
   * The list select: every row as a record, in cursor order, and the connection closed; an
   * empty list when nothing was selected; no list and the mapped error on failure.
   */
  ghost predicate ListDelivered<T>(sel: Selection, outcome: ListOutcome<T>, fromRow: Row -> T, acq: Acquisition, before: ConnState)
    reads if acq.Handle? then {acq.conn} else {}
  {
    match sel
    case Found(q, rows) =>
      outcome == ListCompleted(Some(Records(rows, fromRow)), None) && StateOf(acq) == AfterQueryAndClose(before, q)
    case NotSelected => outcome == ListCompleted(Some([]), None) && StateOf(acq) == before
    case SelectFailed(t) => outcome == ListCompleted(None, Some(ListError(t))) && StateOf(acq) == before
    case QueryFailed(q, d) =>
      outcome == ListCompleted(None, Some(ListError(Engine(d)))) && StateOf(acq) == AfterQuery(before, q)
    case SelectTrap => outcome == ListTrapped && StateOf(acq) == before
  }

  /**
   * The single select: the first row as a record, if there is one, and the connection closed;
   * nothing when nothing was selected; nothing and an `Unknown` error on failure.
   */
  ghost predicate OneDelivered<T>(sel: Selection, outcome: OneOutcome<T>, fromRow: Row -> T, acq: Acquisition, before: ConnState)
    reads if acq.Handle? then {acq.conn} else {}
  {
    match sel
    case Found(q, rows) =>
      && outcome == OneCompleted(if rows == [] then None else Some(fromRow(rows[0])), None)
      && StateOf(acq) == AfterQueryAndClose(before, q)
    case NotSelected => outcome == OneCompleted(None, None) && StateOf(acq) == before
    case SelectFailed(t) => outcome == OneCompleted(None, Some(OneError(t))) && StateOf(acq) == before
    case QueryFailed(q, d) =>
      outcome == OneCompleted(None, Some(OneError(Engine(d)))) && StateOf(acq) == AfterQuery(before, q)
    case SelectTrap => outcome == OneTrapped && StateOf(acq) == before
  }

  // The registry.

  /** The records of a configuration: its list when every element is a dictionary, else none. */
  function Configured(config: Option<Plist>): (r: seq<Plist>)
    ensures forall i :: 0 <= i < |r| ==> r[i].PDict?
  {
    if config.Some? && config.value.PArray? && forall i :: 0 <= i < |config.value.items| ==> config.value.items[i].PDict?
    then config.value.items
    else []
  }

  /** A record can be registered: it names its database and names each sql map's resource. */
  predicate Registrable(record: Plist) {
    record.PDict? && TextAt(record.entries, DbNameKey).Some? && RefsAreNames(record)
  }

  function NameOf(record: Plist): string
    requires Registrable(record)
  {
    TextAt(record.entries, DbNameKey).value
  }

  /** The registry after storing a description of each record under its name, in order. */
  function Register(registry: map<string, Profile>, records: seq<Plist>, bundle: Option<Bundle>): map<string, Profile>
    requires forall i :: 0 <= i < |records| ==> Registrable(records[i])
  {
    if records == [] then registry
    else
      var last := records[|records| - 1];
      Register(registry, records[..|records| - 1], bundle)[NameOf(last) := Described(Blank, last, bundle)]
  }

  /** Registering never removes a name: the names afterwards are the old ones and the records'. */
  lemma {:induction false} RegisterNames(registry: map<string, Profile>, records: seq<Plist>, bundle: Option<Bundle>, n: string)
    requires forall i :: 0 <= i < |records| ==> Registrable(records[i])
    ensures n in Register(registry, records, bundle)
            <==> n in registry || exists i :: 0 <= i < |records| && NameOf(records[i]) == n
  {
    if records != [] {
      var init := records[..|records| - 1];
      RegisterNames(registry, init, bundle, n);
      if exists i :: 0 <= i < |records| && NameOf(records[i]) == n {
        var i :| 0 <= i < |records| && NameOf(records[i]) == n;
        if i < |records| - 1 {
          assert init[i] == records[i];
        }
      }
    }
  }

  /** A name no record carries keeps its old description. */
  lemma {:induction false} RegisterKeepsOthers(registry: map<string, Profile>, records: seq<Plist>, bundle: Option<Bundle>, n: string)
    requires forall i :: 0 <= i < |records| ==> Registrable(records[i])
    requires n in registry && forall i :: 0 <= i < |records| ==> NameOf(records[i]) != n
    ensures n in Register(registry, records, bundle) && Register(registry, records, bundle)[n] == registry[n]
  {
    if records != [] {
      var init := records[..|records| - 1];
      assert forall i :: 0 <= i < |init| ==> init[i] == records[i];
      RegisterKeepsOthers(registry, init, bundle, n);
    }
  }

  /** The last record carrying a name decides its description: later records overwrite earlier ones. */
  lemma {:induction false} RegisterLastWins(registry: map<string, Profile>, records: seq<Plist>, bundle: Option<Bundle>, i: nat)
    requires forall j :: 0 <= j < |records| ==> Registrable(records[j])
    requires i < |records| && forall j :: i < j < |records| ==> NameOf(records[j]) != NameOf(records[i])
    ensures NameOf(records[i]) in Register(registry, records, bundle)
    ensures Register(registry, records, bundle)[NameOf(records[i])] == Described(Blank, records[i], bundle)
  {
    if i < |records| - 1 {
      var init := records[..|records| - 1];
      assert forall j :: 0 <= j < |init| ==> init[j] == records[j];
      RegisterLastWins(registry, init, bundle, i);
    }
  }

  class SQLiteMapper {
    var dbModelDict: map<string, DBModel>
    var bundle: Option<Bundle>

    constructor ()
      ensures dbModelDict == map[] && bundle.None?
    {
      dbModelDict := map[];
      bundle := None;
    }

    /** The description registered under a name, if any. */
    function DbModel(name: string): (r: Option<DBModel>)
      reads this
      ensures r.Some? <==> name in dbModelDict
      ensures r.Some? ==> r.value == dbModelDict[name]
    {
      if name in dbModelDict then Some(dbModelDict[name]) else None
    }

    /** The registered descriptions, as values. */
    function Registry(): map<string, Profile>
      reads this, dbModelDict.Values
    {
      map n | n in dbModelDict :: dbModelDict[n].View()
    }

    /**
     * Reads the configuration list from the bundle and registers a new description for each
     * record under its name. Without a bundle nothing happens.
     */
    method SetUp(plistName: string, bundle: Option<Bundle>)
      requires forall i :: 0 <= i < |Configured(PropertyList(bundle, plistName))| ==>
                 Registrable(Configured(PropertyList(bundle, plistName))[i])
      modifies this
      ensures bundle.None? ==> dbModelDict == old(dbModelDict) && this.bundle == old(this.bundle)
      ensures bundle.Some? ==> this.bundle == bundle
      ensures Registry() == Register(old(Registry()), Configured(PropertyList(bundle, plistName)), bundle)
      ensures forall n :: n in old(dbModelDict) && n in dbModelDict && dbModelDict[n] != old(dbModelDict)[n]
                ==> fresh(dbModelDict[n])
    {
      if bundle.None? {
        assert PropertyList(bundle, plistName).None?;
        return;
      }
      this.bundle := bundle;
      var dbs := Configured(PropertyList(this.bundle, plistName));
      for i := 0 to |dbs|
        invariant this.bundle == bundle
        invariant Registry() == Register(old(Registry()), dbs[..i], bundle)
        invariant forall n :: n in old(dbModelDict) && n in dbModelDict && dbModelDict[n] != old(dbModelDict)[n]
                    ==> fresh(dbModelDict[n])
      {
        assert dbs[..i + 1][..i] == dbs[..i];
        AddModel(dbs[i]);
      }
      assert dbs[..|dbs|] == dbs;
    }

    /** Stores a new description of one record under its name. */
    method AddModel(record: Plist)
      requires Registrable(record)
      modifies this
      ensures bundle == old(bundle)
      ensures Registry() == old(Registry())[NameOf(record) := Described(Blank, record, bundle)]
      ensures NameOf(record) in dbModelDict && fresh(dbModelDict[NameOf(record)])
      ensures dbModelDict == old(dbModelDict)[NameOf(record) := dbModelDict[NameOf(record)]]
    {
      var model := new DBModel(record, bundle);
      dbModelDict := dbModelDict[model.dbName.value := model];
    }

    /** The statements of an id, or the error case for the missing database or id. */
    function Resolve(dbName: string, mapName: string, sqlId: string): (r: Result<seq<string>, ErrorType>)
      reads this, dbModelDict.Values
      ensures r.Err? && dbName !in dbModelDict ==> r.error == ErrorType.DoeseNotExistDbName(dbName)
      ensures r.Err? && dbName in dbModelDict ==> r.error == ErrorType.DoeseNotExistSqlId(sqlId)
      ensures r.Ok? <==> dbName in dbModelDict && dbModelDict[dbName].Queries(mapName, sqlId).Some?
      ensures r.Ok? ==> dbModelDict[dbName].Queries(mapName, sqlId) == Some(r.value)
    {
      match DbModel(dbName)
      case None => Err(ErrorType.DoeseNotExistDbName(dbName))
      case Some(m) =>
        match m.Queries(mapName, sqlId)
        case None => Err(ErrorType.DoeseNotExistSqlId(sqlId))
        case Some(qs) => Ok(qs)
    }

    /** The database file of a description, seeded if needed, opened. */
    method GetCurrentDB(m: DBModel, acq: Acquisition) returns (r: CurrentDb)
      modifies if acq.Handle? then {acq.conn} else {}
      ensures r == CurrentDbOf(m.dbFilePath, acq)
      ensures r.DbReady? ==> r.conn.log == old(r.conn.log) + [Opened] && r.conn.isOpen
      ensures r.DbReady? ==> !r.conn.inTransaction && r.conn.pending == [] && r.conn.lastRowId == 0
                             && r.conn.committed == old(r.conn.committed)
      ensures acq.Handle? && !r.DbReady? ==> unchanged(acq.conn)
    {
      r := CurrentDbOf(m.dbFilePath, acq);
      if r.DbReady? {
        r.conn.Open();
      }
    }

    /** makeQuery on the i-th statement of an id. */
    method ExpandStatement(qs: seq<string>, i: nat, param: Option<Params>) returns (query: string)
      requires i < |qs|
      ensures query == Expanded(qs, param)[i]
    {
      query := MakeQuery(qs[i], param);
      ExpandedAt(qs, param, i);
    }

    /**
     * One turn of the update loop: the statement passes the verb filter, which lets every text
     * through, and is executed; it fails exactly when it is the first one the engine rejects.
     */
    method RunStatement(db: Connection, query: string, ghost es: seq<string>, ghost i: nat, ghost begun: bool,
                        ghost before: ConnState)
      returns (ok: bool)
      requires i < |es| && query == es[i] && i <= FirstRejected(before.committed, es, db.accepts)
      requires db.State() == Running(before, es, i, begun, db.rowIdAfter)
      modifies db
      ensures ok ==> i < FirstRejected(before.committed, es, db.accepts)
                     && db.State() == Running(before, es, i + 1, begun, db.rowIdAfter)
      ensures !ok ==> i == FirstRejected(before.committed, es, db.accepts)
                      && db.State() == old(db.State()).(log := old(db.log) + [Executed(query, false)])
    {
      ok := true;
      UpdatePatternMatchesEverything(query);
      RunningStep(before, es, i, begun, db.rowIdAfter);
      if MatchesUpdatePattern(query) {
        ok := db.ExecuteUpdate(query);
      }
    }

    /**
     * Asks for a transaction on a new handle and runs the statements in declared order, whether
     * or not the transaction began. The first one the engine rejects triggers a rollback, which
     * undoes the statements before it only when the transaction began; otherwise the commit is
     * requested, and success is reported whether or not it goes through. The connection is closed
     * either way.
     */
    method RunTransaction(db: Connection, qs: seq<string>, param: Option<Params>, ghost before: ConnState)
      returns (outcome: UpdateOutcome)
      requires db.log == before.log + [Opened] && db.isOpen && db.committed == before.committed
      requires !db.inTransaction && db.pending == [] && db.lastRowId == 0
      modifies db
      ensures Transacted(Expanded(qs, param), db.accepts, db.begins, db.commits, db.rowIdAfter, before, db.State(), outcome)
    {
      ghost var es := Expanded(qs, param);
      ghost var k := FirstRejected(before.committed, es, db.accepts);
      // Whether the transaction began is not looked at: the statements run either way.
      var began := db.BeginTransaction();
      assert es[..0] == [] && before.committed + es[..0] == before.committed;
      for i := 0 to |qs|
        invariant i <= k
        invariant db.State() == Running(before, es, i, began, db.rowIdAfter)
      {
        var query := ExpandStatement(qs, i, param);
        var ok := RunStatement(db, query, es, i, began, before);
        if !ok {
          db.Rollback();
          db.Close();
          outcome := Completed(false, Some(MakeError("Invalid query: " + query, ErrorCode.InvalidSqlQuery)), 0);
          RejectedTransaction(before, es, db.accepts, db.begins, db.commits, db.rowIdAfter, i);
          return;
        }
      }
      // The result of the commit is not looked at: success is reported either way.
      var committed := db.Commit();
      var lastInsertRowId := db.LastInsertRowId();
      db.Close();
      outcome := Completed(true, None, lastInsertRowId);
      CommittedTransaction(before, es, db.accepts, db.begins, db.commits, db.rowIdAfter);
    }

    /**
     * Runs every statement of an id, expanded with the parameters, in declared order inside one
     * transaction; the first one the engine rejects rolls everything back.
     */
    method Update(dbName: string, mapName: string, sqlId: string, param: Option<Params>, acq: Acquisition)
      returns (outcome: UpdateOutcome)
      modifies if acq.Handle? then {acq.conn} else {}
      ensures dbName !in dbModelDict ==>
                outcome == Completed(false, Some(MakeError("dbName \"" + dbName + "\" does not exist!",
                                                           ErrorCode.DoeseNotExistDbName)), 0)
      ensures dbName in dbModelDict && dbModelDict[dbName].Queries(mapName, sqlId).None? ==>
                outcome == Completed(false, Some(MakeError("sqlId \"" + sqlId + "\" does not exist!",
                                                           ErrorCode.DoeseNotExistSqlId)), 0)
      ensures Resolve(dbName, mapName, sqlId).Err? && acq.Handle? ==> unchanged(acq.conn)
      ensures Resolve(dbName, mapName, sqlId).Ok? ==>
                match CurrentDbOf(dbModelDict[dbName].dbFilePath, acq)
                case DbTrap => outcome == Trapped && (acq.Handle? ==> unchanged(acq.conn))
                case DbNone => outcome == NoCompletion && (acq.Handle? ==> unchanged(acq.conn))
                case DbThrew(d) => outcome == Completed(false, Some(MakeError(d + "!", ErrorCode.Unknown)), 0)
                case DbReady(c) =>
                  Transacted(Expanded(Resolve(dbName, mapName, sqlId).value, param), c.accepts, c.begins, c.commits,
                             c.rowIdAfter, old(c.State()), c.State(), outcome)
    {
      var model := DbModel(dbName);
      if model.None? {
        outcome := Completed(false, Some(MakeError("dbName \"" + dbName + "\" does not exist!", ErrorCode.DoeseNotExistDbName)), 0);
        return;
      }
      var queries := model.value.Queries(mapName, sqlId);
      if queries.None? {
        outcome := Completed(false, Some(MakeError("sqlId \"" + sqlId + "\" does not exist!", ErrorCode.DoeseNotExistSqlId)), 0);
        return;
      }
      var current := GetCurrentDB(model.value, acq);
      match current
      case DbTrap =>
        outcome := Trapped;
      case DbNone =>
        outcome := NoCompletion;
      case DbThrew(d) =>
        outcome := Completed(false, Some(MakeError(d + "!", ErrorCode.Unknown)), 0);
      case DbReady(db) =>
        outcome := RunTransaction(db, queries.value, param, old(db.State()));
    }

    /** What a select finds: only the first statement of the id is used. */
    function Selection(dbName: string, mapName: string, sqlId: string, param: Option<Params>, acq: Acquisition): Selection
      reads this, dbModelDict.Values
    {
      match Resolve(dbName, mapName, sqlId)
      case Err(e) => SelectFailed(Mapper(e))
      case Ok(qs) =>
        if qs == [] then SelectTrap
        else SelectionOf(Expand(qs[0], param), dbModelDict[dbName].dbFilePath, acq)
    }

    /** Runs an expanded statement when it is a select. */
    method RunSelect(query: string, m: DBModel, acq: Acquisition) returns (r: SelectResult)
      modifies if acq.Handle? then {acq.conn} else {}
      ensures Delivered(SelectionOf(query, m.dbFilePath, acq), r, acq, old(StateOf(acq)))
      ensures r.Selected? && r.cursor.Some? ==> fresh(r.cursor.value)
    {
      if MatchesSelectPattern(query) {
        var current := GetCurrentDB(m, acq);
        match current
        case DbTrap =>
          return SelectTrapped;
        case DbThrew(d) =>
          return Threw(Engine(d));
        case DbNone =>
        case DbReady(db) =>
          var answer := db.ExecuteQuery(query);
          match answer
          case Err(d) =>
            return Threw(Engine(d));
          case Ok(cursor) =>
            return Selected(Some(cursor), Some(db));
      }
      return Selected(None, None);
    }

    /**
     * Resolves an id, expands its first statement and, when that is a select, opens the database
     * and runs it. A failing query leaves the connection open.
     */
    method Select(dbName: string, mapName: string, sqlId: string, param: Option<Params>, acq: Acquisition)
      returns (r: SelectResult)
      modifies if acq.Handle? then {acq.conn} else {}
      ensures Delivered(old(Selection(dbName, mapName, sqlId, param, acq)), r, acq, old(StateOf(acq)))
      ensures r.Selected? && r.cursor.Some? ==> fresh(r.cursor.value)
    {
      match Resolve(dbName, mapName, sqlId)
      case Err(e) =>
        r := Threw(Mapper(e));
      case Ok(queries) =>
        if queries == [] {
          r := SelectTrapped;
        } else {
          var query := MakeQuery(queries[0], param);
          r := RunSelect(query, dbModelDict[dbName], acq);
        }
    }

    /** Reads the cursor to its end, making a record of each row, in cursor order. */
    method Drain<T>(rs: ResultSet, fromRow: Row -> T) returns (list: seq<T>)
      requires rs.position == -1
      modifies rs
      ensures list == Records(rs.rows, fromRow)
    {
      list := [];
      var more := rs.Next();
      while more
        invariant 0 <= rs.position <= |rs.rows| && (more <==> rs.position < |rs.rows|)
        invariant list == Records(rs.rows[..rs.position], fromRow)
        decreases |rs.rows| - rs.position
      {
        var row := rs.ResultDictionary();
        assert rs.rows[..rs.position + 1] == rs.rows[..rs.position] + [row];
        list := list + [fromRow(row)];
        more := rs.Next();
      }
      assert rs.rows[..rs.position] == rs.rows;
    }

    /** Turns what the private select returned into what the list select's handler receives. */
    method FinishList<T>(ghost sel: Selection, r: SelectResult, acq: Acquisition, fromRow: Row -> T,
                         ghost before: ConnState)
      returns (outcome: ListOutcome<T>)
      requires Delivered(sel, r, acq, before)
      modifies if acq.Handle? then {acq.conn} else {}
      modifies if r.Selected? && r.cursor.Some? then {r.cursor.value} else {}
      ensures ListDelivered(sel, outcome, fromRow, acq, before)
    {
      match r
      case SelectTrapped =>
        outcome := ListTrapped;
      case Threw(t) =>
        outcome := ListCompleted(None, Some(ListError(t)));
      case Selected(cursor, db) =>
        var list: seq<T> := [];
        if cursor.Some? {
          list := Drain(cursor.value, fromRow);
        }
        if db.Some? {
          db.value.Close();
        }
        outcome := ListCompleted(Some(list), None);
    }

    /** Every row of the first statement's answer, each made into a record, in cursor order. */
    method SelectList<T>(dbName: string, mapName: string, sqlId: string, param: Option<Params>,
                         acq: Acquisition, fromRow: Row -> T)
      returns (outcome: ListOutcome<T>)
      modifies if acq.Handle? then {acq.conn} else {}
      ensures ListDelivered(old(Selection(dbName, mapName, sqlId, param, acq)), outcome, fromRow, acq, old(StateOf(acq)))
    {
      ghost var sel := Selection(dbName, mapName, sqlId, param, acq);
      ghost var before := StateOf(acq);
      var r := Select(dbName, mapName, sqlId, param, acq);
      outcome := FinishList(sel, r, acq, fromRow, before);
    }

    /** Turns what the private select returned into what the single select's handler receives. */
    method FinishOne<T>(ghost sel: Selection, r: SelectResult, acq: Acquisition, fromRow: Row -> T,
                        ghost before: ConnState)
      returns (outcome: OneOutcome<T>)
      requires Delivered(sel, r, acq, before)
      modifies if acq.Handle? then {acq.conn} else {}
      modifies if r.Selected? && r.cursor.Some? then {r.cursor.value} else {}
      ensures OneDelivered(sel, outcome, fromRow, acq, before)
    {
      match r
      case SelectTrapped =>
        outcome := OneTrapped;
      case Threw(t) =>
        outcome := OneCompleted(None, Some(OneError(t)));
      case Selected(cursor, db) =>
        var item: Option<T> := None;
        if cursor.Some? {
          var more := cursor.value.Next();
          if more {
            var row := cursor.value.ResultDictionary();
            item := Some(fromRow(row));
          }
        }
        if db.Some? {
          db.value.Close();
        }
        outcome := OneCompleted(item, None);
    }

    /** The first row of the first statement's answer made into a record; every error is `Unknown`. */
    method SelectOne<T>(dbName: string, mapName: string, sqlId: string, param: Option<Params>,
                        acq: Acquisition, fromRow: Row -> T)
      returns (outcome: OneOutcome<T>)
      modifies if acq.Handle? then {acq.conn} else {}
      ensures OneDelivered(old(Selection(dbName, mapName, sqlId, param, acq)), outcome, fromRow, acq, old(StateOf(acq)))
    {
      ghost var sel := Selection(dbName, mapName, sqlId, param, acq);
      ghost var before := StateOf(acq);
      var r := Select(dbName, mapName, sqlId, param, acq);
      outcome := FinishOne(sel, r, acq, fromRow, before);
    }
  }
}
