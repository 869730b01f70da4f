/** The query builder's execution methods (src/Query.php). The builder
    state they read and change in place is kept in the fields `select`,
    `offset` and `limit`; the query's other clauses (table, where, order)
    are fixed for these calls and live in the database's matched rows. */
module Query {
  import opened Wrappers
  import opened Exceptions
  import opened Collaborators
  import opened SelectTrait

  class Query {
    /** The database (grammar and connection) the query is performed on. */
    const database: Database
    var select: seq<SelectItem>
    var offset: Option<nat>
    var limit: Option<nat>

    /** The builder state the grammar compiles. */
    function Snapshot(): QueryState
      reads this
    {
      QueryState(select, offset, limit)
    }

    constructor (database: Database)
      ensures this.database == database
      ensures select == [] && offset == None && limit == None
    {
      this.database := database;
      select, offset, limit := [], None, None;
    }

    /** `get()`: the rows of the compiled query, the builder left as it is. */
    method Get() returns (r: Result<seq<Row>, Exception>)
      ensures r == GetCall(database, Snapshot())
      ensures r.Success? ==> r.value == Window(ResultSet(database, select), offset, limit)
      ensures r.Failure? ==> !r.error.kind.FromQueryScribe()
    {
      var compiled := Select(database, Snapshot());
      r := PerformQuery(compiled);
    }

    /** `first()`: forces the query's own limit to 1, then returns the first
        row, or None. */
    method First() returns (r: Result<Option<Row>, Exception>)
      modifies this
      ensures (Snapshot(), r) == FirstCall(database, old(Snapshot()))
      ensures select == old(select) && offset == old(offset) && limit == Some(1)
    {
      limit := Some(1);
      r := PerformQuery(SelectFirst(database, Snapshot()));
    }

    /** The body the five aggregate methods share: the select list becomes
        the one aggregate aliased `aggregate`, offset and limit are cleared,
        and the aggregate is read from the first row. */
    method Aggregate(fn: AggregateFunction, column: Column) returns (r: Result<Value, Exception>)
      modifies this
      ensures (Snapshot(), r) == AggregateCall(database, old(Snapshot()), fn, column)
    {
      var outcome: Result<Value, Exception>;
      select := [];
      var rejected := database.argumentError(column);
      if rejected.Some? {
        outcome := Failure(rejected.value);
      } else {
        select := select + [Collaborators.Aggregate(fn, column, AggregateAlias)];
        offset, limit := None, None;
        outcome := ReadAggregate(SelectFirst(database, Snapshot()));
      }
      r := PerformQuery(outcome);
    }

    method Count(column: Column := Name("*")) returns (r: Result<Value, Exception>)
      modifies this
      ensures (Snapshot(), r) == AggregateCall(database, old(Snapshot()), AggregateFunction.Count, column)
    {
      r := Aggregate(AggregateFunction.Count, column);
    }

    method Avg(column: Column) returns (r: Result<Value, Exception>)
      modifies this
      ensures (Snapshot(), r) == AggregateCall(database, old(Snapshot()), AggregateFunction.Avg, column)
    {
      r := Aggregate(AggregateFunction.Avg, column);
    }

    method Sum(column: Column) returns (r: Result<Value, Exception>)
      modifies this
      ensures (Snapshot(), r) == AggregateCall(database, old(Snapshot()), AggregateFunction.Sum, column)
    {
      r := Aggregate(AggregateFunction.Sum, column);
    }

    method Min(column: Column) returns (r: Result<Value, Exception>)
      modifies this
      ensures (Snapshot(), r) == AggregateCall(database, old(Snapshot()), AggregateFunction.Min, column)
    {
      r := Aggregate(AggregateFunction.Min, column);
    }

    method Max(column: Column) returns (r: Result<Value, Exception>)
      modifies this
      ensures (Snapshot(), r) == AggregateCall(database, old(Snapshot()), AggregateFunction.Max, column)
    {
      r := Aggregate(AggregateFunction.Max, column);
    }

    /** `$this->offset($at)->limit($size)->get()`: one page of `chunk`. */
    method FetchPage(at: nat, size: nat) returns (rows: Result<seq<Row>, Exception>)
      modifies this
      ensures select == old(select) && offset == Some(at) && limit == Some(size)
      ensures rows == GetCall(database, PageState(select, at, size))
    {
      offset, limit := Some(at), Some(size);
      rows := Get();
    }

    /** `chunk(size, callback)`. The callback is modelled by the log `pages`
        of the rows it was called with; `fetched` logs the offset of every
        page fetched. The query keeps the offset and limit of the last page. */
    method Chunk(size: int) returns (pages: seq<seq<Row>>, fetched: seq<nat>, r: Outcome<Exception>)
      modifies this
      ensures Trace(pages, fetched, r) == SelectTrait.Chunk(database, old(select), size)
      ensures select == old(select)
      ensures size <= 0 ==> offset == old(offset) && limit == old(limit)
      ensures size > 0 ==> |fetched| > 0 && offset == Some(fetched[|fetched| - 1]) && limit == Some(size)
    {
      pages, fetched := [], [];
      if size <= 0 {
        r := Fail(ChunkSizeError());
        return;
      }
      var current: nat := 0;
      ghost var whole := ChunkFrom(database, select, size, 0);
      ResumeStart(whole);
      while true
        invariant select == old(select)
        invariant Resume(pages, fetched, ChunkFrom(database, select, size, current)) == whole
        decreases |ResultSet(database, select)| - current
      {
        var rows := FetchPage(current, size);
        ChunkStep(database, select, size, current, rows);
        if rows.Failure? {
          ResumeStop(pages, fetched, [], current, Fail(rows.error));
          fetched, r := fetched + [current], Fail(rows.error);
          break;
        }
        if rows.value == [] {
          ResumeStop(pages, fetched, [], current, Pass);
          fetched, r := fetched + [current], Pass;
          break;
        }
        if |rows.value| < size {
          ResumeStop(pages, fetched, [rows.value], current, Pass);
          pages, fetched, r := pages + [rows.value], fetched + [current], Pass;
          break;
        }
        ResumeStep(pages, fetched, rows.value, current, ChunkFrom(database, select, size, current + size));
        pages, fetched := pages + [rows.value], fetched + [current];
        current := current + size;
      }
    }
  }
}
