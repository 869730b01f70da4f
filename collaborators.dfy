/** The two libraries the query builder delegates to, seen only through what
    the select methods consume: QueryScribe (the base builder's argument
    checks and `compileSelect`) and the connection (`select`, `selectFirst`).
    Both are abstract here: a `Database` value says, for every builder state,
    whether compiling or executing it throws, and which rows the query's own
    clauses (table, where, order) match. */
module Collaborators {
  import opened Wrappers
  import opened Exceptions

  /** A column value as the connection returns it. Floating point numbers are
      not modelled; the database's aggregate values stay opaque. */
  datatype Value = Null | Int(i: int) | Text(s: string)

  /** A result row, indexed by column name. */
  type Row = map<string, Value>

  datatype AggregateFunction = Count | Avg | Sum | Min | Max

  /** The column argument of an aggregate: a name, a raw expression or a
      subquery (a closure or another query), told apart only by identity. */
  datatype Column = Name(name: string) | Raw(sql: string) | Subquery(id: nat)

  datatype SelectItem =
    | Field(column: Column)
    | Aggregate(fn: AggregateFunction, column: Column, alias: string)

  /** The part of the builder state the select methods change. */
  datatype QueryState = QueryState(select: seq<SelectItem>, offset: Option<nat>, limit: Option<nat>)

  /** The database a query runs against, together with the grammar.
      `rows`: the rows the query's table, where and order clauses match, in order;
      `aggregate`: the value the database computes for an aggregate;
      `argumentError`: what `addCount`/`addAvg`/... throw for a column argument, if anything;
      `compileError`: what `compileSelect` throws for a builder state, if anything;
      `executeError`: what the connection throws for the compiled statement, if anything. */
  datatype Database = Database(
    rows: seq<Row>,
    aggregate: (AggregateFunction, Column) -> Value,
    argumentError: Column -> Option<Exception>,
    compileError: QueryState -> Option<Exception>,
    executeError: QueryState -> Option<Exception>)

  /** SQL's OFFSET/LIMIT: the rows from `offset` on, at most `limit` of them. */
  function Window<T>(rows: seq<T>, offset: Option<nat>, limit: Option<nat>): seq<T>
  {
    var start := if offset.GetOr(0) < |rows| then offset.GetOr(0) else |rows|;
    var end := if limit.Some? && start + limit.value < |rows| then start + limit.value else |rows|;
    rows[start..end]
  }

  /** The window is empty once the offset is past the rows; otherwise it
      holds `limit` rows, or all the rest when fewer remain, and its i-th row
      is the row at `offset + i`. */
  lemma WindowRows<T>(rows: seq<T>, offset: Option<nat>, limit: Option<nat>)
    ensures var r := Window(rows, offset, limit);
            (offset.GetOr(0) >= |rows| ==> r == []) &&
            (offset.GetOr(0) < |rows| ==>
               |r| == if limit.Some? && limit.value < |rows| - offset.GetOr(0)
                      then limit.value else |rows| - offset.GetOr(0)) &&
            (forall i :: 0 <= i < |r| ==> r[i] == rows[offset.GetOr(0) + i])
  {
  }

  /** The rows a select list yields before OFFSET/LIMIT: one row holding the
      aggregate under its alias when the list is a single aggregate, the
      matched rows otherwise. */
  function ResultSet(db: Database, select: seq<SelectItem>): seq<Row>
  {
    if |select| == 1 && select[0].Aggregate? then
      [map[select[0].alias := db.aggregate(select[0].fn, select[0].column)]]
    else
      db.rows
  }

  /** `compileSelect` followed by the connection's `select`. */
  function Select(db: Database, q: QueryState): Result<seq<Row>, Exception>
  {
    match db.compileError(q)
    case Some(e) => Failure(e)
    case None =>
      match db.executeError(q)
      case Some(e) => Failure(e)
      case None => Success(Window(ResultSet(db, q.select), q.offset, q.limit))
  }

  /** `compileSelect` followed by the connection's `selectFirst`: the first
      row, or None when there is none. */
  function SelectFirst(db: Database, q: QueryState): Result<Option<Row>, Exception>
  {
    match Select(db, q)
    case Failure(e) => Failure(e)
    case Success(rows) => Success(if rows == [] then None else Some(rows[0]))
  }

  /** Neither the grammar nor the connection throws for state `q`. */
  predicate Runs(db: Database, q: QueryState) {
    db.compileError(q).None? && db.executeError(q).None?
  }
}
