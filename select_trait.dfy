/** What the select methods of the query builder do, as functions of the
    builder state and the database: `get`, `first`, the five aggregates and
    `chunk` (src/QueryParts/SelectTrait.php; src/Query.php has the same
    bodies). Each function returns the builder state the method leaves
    behind together with what it returns or throws; the class in query.dfy
    is proved to follow them. */
module SelectTrait {
  import opened Wrappers
  import opened Exceptions
  import opened Collaborators

  /** The alias every aggregate is selected under and read back by. */
  const AggregateAlias := "aggregate"

  const ChunkSizeMessage := "Chunk size must be greater than zero"

  /** What `chunk` throws for a size below one. */
  function ChunkSizeError(): Exception {
    Exception(InvalidArgument, ChunkSizeMessage, 0, None)
  }

  // ---------------------------------------------------------------- get

  /** `get()`: the rows the connection returns for the compiled state, or the
      grammar's or connection's exception after translation. The state is
      left as it was. */
  function GetCall(db: Database, q: QueryState): (r: Result<seq<Row>, Exception>)
    ensures r.Success? <==> Runs(db, q)
    ensures r.Success? ==> r.value == Window(ResultSet(db, q.select), q.offset, q.limit)
    ensures r.Success? && q.limit.Some? ==> |r.value| <= q.limit.value
    ensures db.compileError(q).Some? ==> r == Failure(Translate(db.compileError(q).value))
    ensures db.compileError(q).None? && db.executeError(q).Some? ==>
              r == Failure(Translate(db.executeError(q).value))
  {
    PerformQuery(Select(db, q))
  }

  // -------------------------------------------------------------- first

  /** `first()`: sets the limit to 1 on the query itself, then returns the
      first row at the query's offset, or None when there is none. */
  function FirstCall(db: Database, q: QueryState): (r: (QueryState, Result<Option<Row>, Exception>))
    ensures r.0.select == q.select && r.0.offset == q.offset && r.0.limit == Some(1)
    ensures r.1.Success? <==> Runs(db, r.0)
    ensures r.1.Success? ==>
              (r.1.value.Some? <==> q.offset.GetOr(0) < |ResultSet(db, q.select)|)
    ensures r.1.Success? && r.1.value.Some? ==>
              r.1.value.value == ResultSet(db, q.select)[q.offset.GetOr(0)]
    ensures db.compileError(r.0).Some? ==> r.1 == Failure(Translate(db.compileError(r.0).value))
    ensures db.compileError(r.0).None? && db.executeError(r.0).Some? ==>
              r.1 == Failure(Translate(db.executeError(r.0).value))
    ensures r.1.Failure? ==> !r.1.error.kind.FromQueryScribe()
  {
    var q' := q.(limit := Some(1));
    (q', PerformQuery(SelectFirst(db, q')))
  }

  /** Unless the query's limit is 0, `first()` returns the first row that
      `get()` would have returned. */
  lemma FirstIsHeadOfGet(db: Database, q: QueryState)
    requires q.limit != Some(0)
    requires Runs(db, q) && Runs(db, FirstCall(db, q).0)
    ensures GetCall(db, q).Success? && FirstCall(db, q).1.Success?
    ensures var rows := GetCall(db, q).value;
            FirstCall(db, q).1.value == if rows == [] then None else Some(rows[0])
  {
  }

  // --------------------------------------------------------- aggregates

  /** Reads the aggregate column of what `selectFirst` returned; like PHP's
      `$row['aggregate']`, a missing row or column reads as null. */
  function ReadAggregate(first: Result<Option<Row>, Exception>): (r: Result<Value, Exception>)
    ensures r.Failure? <==> first.Failure?
    ensures first.Failure? ==> r.error == first.error
    ensures first.Success? && first.value.Some? && AggregateAlias in first.value.value ==>
              r == Success(first.value.value[AggregateAlias])
    ensures first.Success? && (first.value.None? || AggregateAlias !in first.value.value) ==>
              r == Success(Null)
  {
    match first
    case Failure(e) => Failure(e)
    case Success(None) => Success(Null)
    case Success(Some(row)) => Success(if AggregateAlias in row then row[AggregateAlias] else Null)
  }

  /** `count`/`avg`/`sum`/`min`/`max`: empty the select list, add the one
      aggregate under the alias `aggregate` (the base builder may reject the
      column here, leaving offset and limit as they were), clear offset and
      limit, then read the aggregate back from the first row. */
  function AggregateCall(db: Database, q: QueryState, fn: AggregateFunction, column: Column)
    : (r: (QueryState, Result<Value, Exception>))
    ensures db.argumentError(column).Some? ==>
              r.0 == q.(select := []) && r.1 == Failure(Translate(db.argumentError(column).value))
    ensures db.argumentError(column).None? ==>
              r.0 == QueryState([Aggregate(fn, column, AggregateAlias)], None, None)
    ensures r.1.Success? <==> db.argumentError(column).None? && Runs(db, r.0)
    ensures r.1.Success? ==> r.1.value == db.aggregate(fn, column)
    ensures db.argumentError(column).None? && db.compileError(r.0).Some? ==>
              r.1 == Failure(Translate(db.compileError(r.0).value))
    ensures db.argumentError(column).None? && db.compileError(r.0).None? && db.executeError(r.0).Some? ==>
              r.1 == Failure(Translate(db.executeError(r.0).value))
    ensures r.1.Failure? ==> !r.1.error.kind.FromQueryScribe()
  {
    match db.argumentError(column)
    case Some(e) => (q.(select := []), PerformQuery(Failure(e)))
    case None =>
      var q' := QueryState([] + [Aggregate(fn, column, AggregateAlias)], None, None);
      (q', PerformQuery(ReadAggregate(SelectFirst(db, q'))))
  }

  /** A positive offset left over from earlier calls, with whatever limit,
      skips the single aggregate row, so the aggregate would read back as
      null if it were not cleared. */
  lemma StaleOffsetHidesAggregate(db: Database, fn: AggregateFunction, column: Column, k: nat, limit: Option<nat>)
    requires k > 0
    requires Runs(db, QueryState([Aggregate(fn, column, AggregateAlias)], Some(k), limit))
    ensures ReadAggregate(SelectFirst(db, QueryState([Aggregate(fn, column, AggregateAlias)], Some(k), limit)))
              == Success(Null)
  {
  }

  // -------------------------------------------------------------- chunk

  /** What `chunk` did: the pages it passed to the callback, in order, the
      offsets of the pages it fetched, in order, and whether it threw. */
  datatype Trace = Trace(pages: seq<seq<Row>>, fetched: seq<nat>, outcome: Outcome<Exception>)

  /** The builder state `chunk` fetches a page with. */
  function PageState(select: seq<SelectItem>, offset: nat, size: nat): QueryState {
    QueryState(select, Some(offset), Some(size))
  }

  /** The `chunk` loop from `offset` on: fetch a page of `size` rows; stop on
      an exception or an empty page; pass the page to the callback; stop
      after a short page, otherwise go on at `offset + size`. */
  function ChunkFrom(db: Database, select: seq<SelectItem>, size: nat, offset: nat): (t: Trace)
    requires size > 0
    decreases |ResultSet(db, select)| - offset
  {
    match GetCall(db, PageState(select, offset, size))
    case Failure(e) => Trace([], [offset], Fail(e))
    case Success(rows) =>
      if rows == [] then Trace([], [offset], Pass)
      else if |rows| < size then Trace([rows], [offset], Pass)
      else
        var rest := ChunkFrom(db, select, size, offset + size);
        Trace([rows] + rest.pages, [offset] + rest.fetched, rest.outcome)
  }

  /** One turn of the `chunk` loop, case by case on the page fetched. */
  lemma ChunkStep(db: Database, select: seq<SelectItem>, size: nat, offset: nat,
                  page: Result<seq<Row>, Exception>)
    requires size > 0
    requires page == GetCall(db, PageState(select, offset, size))
    ensures page.Failure? ==> ChunkFrom(db, select, size, offset) == Trace([], [offset], Fail(page.error))
    ensures page.Success? && page.value == [] ==> ChunkFrom(db, select, size, offset) == Trace([], [offset], Pass)
    ensures page.Success? && 0 < |page.value| < size ==>
              ChunkFrom(db, select, size, offset) == Trace([page.value], [offset], Pass)
    ensures page.Success? && |page.value| >= size ==>
              offset < |ResultSet(db, select)| &&
              var rest := ChunkFrom(db, select, size, offset + size);
              ChunkFrom(db, select, size, offset) ==
                Trace([page.value] + rest.pages, [offset] + rest.fetched, rest.outcome)
  {
  }

  /** The whole trace of a `chunk` run that has already passed `pages` to the
      callback and fetched at `fetched`, and goes on as `rest`. */
  function Resume(pages: seq<seq<Row>>, fetched: seq<nat>, rest: Trace): Trace
  {
    Trace(pages + rest.pages, fetched + rest.fetched, rest.outcome)
  }

  lemma ResumeStart(t: Trace)
    ensures Resume([], [], t) == t
  {
  }

  /** Passing one more page on and moving to the next offset keeps the trace. */
  lemma ResumeStep(pages: seq<seq<Row>>, fetched: seq<nat>, page: seq<Row>, offset: nat, next: Trace)
    ensures Resume(pages + [page], fetched + [offset], next)
            == Resume(pages, fetched, Trace([page] + next.pages, [offset] + next.fetched, next.outcome))
  {
    assert (pages + [page]) + next.pages == pages + ([page] + next.pages);
    assert (fetched + [offset]) + next.fetched == fetched + ([offset] + next.fetched);
  }

  /** A last turn that passes `last` on (possibly nothing) and stops with `outcome`. */
  lemma ResumeStop(pages: seq<seq<Row>>, fetched: seq<nat>, last: seq<seq<Row>>, offset: nat,
                   outcome: Outcome<Exception>)
    ensures Resume(pages, fetched, Trace(last, [offset], outcome)) == Trace(pages + last, fetched + [offset], outcome)
  {
  }

  /** `chunk(size, callback)`: a size below one throws before any page is
      fetched or passed on; otherwise the loop runs from offset 0. */
  function Chunk(db: Database, select: seq<SelectItem>, size: int): (t: Trace)
    ensures size <= 0 ==>
              t.fetched == [] && t.pages == [] && t.outcome.Fail? &&
              t.outcome.error.kind.InvalidArgument? && t.outcome.error.message == ChunkSizeMessage
  {
    if size <= 0 then Trace([], [], Fail(ChunkSizeError())) else ChunkFrom(db, select, size, 0)
  }

  /** A positive size always fetches, and fetches the first page at offset 0. */
  lemma ChunkStartsAtZero(db: Database, select: seq<SelectItem>, size: int)
    requires size > 0
    ensures |Chunk(db, select, size).fetched| > 0 && Chunk(db, select, size).fetched[0] == 0
  {
    ChunkStep(db, select, size, 0, GetCall(db, PageState(select, 0, size)));
  }

  // The reference the pages are compared with.

  function Flatten<T>(pages: seq<seq<T>>): seq<T>
  {
    if pages == [] then [] else pages[0] + Flatten(pages[1..])
  }

  /** `s` cut into consecutive pieces of `size` elements, the last one
      possibly shorter. */
  function Pages<T>(s: seq<T>, size: nat): seq<seq<T>>
    requires size > 0
    decreases |s|
  {
    if s == [] then []
    else if |s| <= size then [s]
    else [s[..size]] + Pages(s[size..], size)
  }

  /** The offsets `start`, `start + size`, ... up to the one that reaches
      `start + n` rows or lies past them by less than `size`. */
  function Offsets(start: nat, n: nat, size: nat): seq<nat>
    requires size > 0
    decreases n
  {
    if n < size then [start] else [start] + Offsets(start + size, n - size, size)
  }

  lemma {:induction false} FlattenCons<T>(page: seq<T>, rest: seq<seq<T>>)
    ensures Flatten([page] + rest) == page + Flatten(rest)
  {
    assert ([page] + rest)[1..] == rest;
  }

  /** The pieces put back together are `s`; none is empty, none exceeds
      `size`, and all but the last have exactly `size` elements. */
  lemma {:induction false} PagesPartition<T>(s: seq<T>, size: nat)
    requires size > 0
    ensures Flatten(Pages(s, size)) == s
    ensures forall i :: 0 <= i < |Pages(s, size)| ==> 0 < |Pages(s, size)[i]| <= size
    ensures forall i :: 0 <= i < |Pages(s, size)| - 1 ==> |Pages(s, size)[i]| == size
    decreases |s|
  {
    if s == [] {
    } else if |s| <= size {
      FlattenCons(s, []);
    } else {
      PagesPartition(s[size..], size);
      FlattenCons(s[..size], Pages(s[size..], size));
      assert s == s[..size] + s[size..];
    }
  }

  /** The k-th offset is `start + k * size`, and the last one is the only
      multiple of `size` past `start` whose page can still hold one of the
      `n` rows or be the first empty one. */
  lemma {:induction false} OffsetsAt(start: nat, n: nat, size: nat)
    requires size > 0
    ensures forall k :: 0 <= k < |Offsets(start, n, size)| ==> Offsets(start, n, size)[k] == start + k * size
    ensures (|Offsets(start, n, size)| - 1) * size <= n < |Offsets(start, n, size)| * size
    decreases n
  {
    var o := Offsets(start, n, size);
    if n >= size {
      var rest := Offsets(start + size, n - size, size);
      OffsetsAt(start + size, n - size, size);
      assert o == [start] + rest;
      forall k | 0 < k < |o|
        ensures o[k] == start + k * size
      {
        assert o[k] == rest[k - 1] == start + size + (k - 1) * size;
      }
      assert (|o| - 1) * size == (|rest| - 1) * size + size;
      assert |o| * size == |rest| * size + size;
    }
  }

  /** One more offset is fetched than pages are passed on exactly when the
      row count is a multiple of `size` (the pages times `size`): only then
      is an empty page fetched. */
  lemma {:induction false} OffsetsOutnumberPages<T>(s: seq<T>, start: nat, size: nat)
    requires size > 0
    ensures |Offsets(start, |s|, size)| ==
            |Pages(s, size)| + (if |s| == |Pages(s, size)| * size then 1 else 0)
    decreases |s|
  {
    if |s| > size {
      OffsetsOutnumberPages(s[size..], start + size, size);
      assert (1 + |Pages(s[size..], size)|) * size == size + |Pages(s[size..], size)| * size;
    } else if |s| == size {
      assert Offsets(start + size, 0, size) == [start + size];
    }
  }

  lemma NextMultiple(start: nat, k: nat, size: nat)
    requires k > 0
    ensures start + size + (k - 1) * size == start + k * size
  {
  }

  /** `n` offsets `start`, `start + size`, ..., the ones a run that never
      stops early would fetch at. */
  function Strides(start: nat, size: nat, n: nat): seq<nat>
    decreases n
  {
    if n == 0 then [] else [start] + Strides(start + size, size, n - 1)
  }

  /** The `n` windows of `size` rows at those offsets. */
  function Windows<T>(rows: seq<T>, start: nat, size: nat, n: nat): seq<seq<T>>
    decreases n
  {
    if n == 0 then [] else [Window(rows, Some(start), Some(size))] + Windows(rows, start + size, size, n - 1)
  }

  lemma {:induction false} StridesAt(start: nat, size: nat, n: nat)
    ensures |Strides(start, size, n)| == n
    ensures forall k :: 0 <= k < n ==> Strides(start, size, n)[k] == start + k * size
    decreases n
  {
    if n > 0 {
      var rest := Strides(start + size, size, n - 1);
      StridesAt(start + size, size, n - 1);
      forall k | 0 < k < n
        ensures Strides(start, size, n)[k] == start + k * size
      {
        NextMultiple(start, k, size);
        assert Strides(start, size, n)[k] == rest[k - 1];
      }
    }
  }

  lemma {:induction false} WindowsAt<T>(rows: seq<T>, start: nat, size: nat, n: nat)
    ensures |Windows(rows, start, size, n)| == n
    ensures forall k: nat :: k < n ==>
              Windows(rows, start, size, n)[k] == Window(rows, Some(start + k * size), Some(size))
    decreases n
  {
    if n > 0 {
      var rest := Windows(rows, start + size, size, n - 1);
      WindowsAt(rows, start + size, size, n - 1);
      assert Windows(rows, start, size, n) == [Window(rows, Some(start), Some(size))] + rest;
      forall k: nat | 0 < k < n
        ensures Windows(rows, start, size, n)[k] == Window(rows, Some(start + k * size), Some(size))
      {
        NextMultiple(start, k, size);
        assert Windows(rows, start, size, n)[k] == rest[k - 1];
      }
    }
  }

  // The chunk loop against the reference.

  /** Whatever the database throws, the fetches go at `offset`,
      `offset + size`, ... (with limit `size`), and at most the last fetch
      passes nothing on. */
  lemma {:induction false} ChunkFetchOrder(db: Database, select: seq<SelectItem>, size: nat, offset: nat)
    requires size > 0
    ensures var t := ChunkFrom(db, select, size, offset);
            t.fetched == Strides(offset, size, |t.fetched|) &&
            (|t.fetched| == |t.pages| || |t.fetched| == |t.pages| + 1)
    decreases |ResultSet(db, select)| - offset
  {
    var page := GetCall(db, PageState(select, offset, size));
    ChunkStep(db, select, size, offset, page);
    if page.Success? && |page.value| >= size {
      ChunkFetchOrder(db, select, size, offset + size);
    }
  }

  /** Whatever the database throws, the callback gets the fetched pages
      unmodified: the windows of the matched rows at `offset`,
      `offset + size`, ... */
  lemma {:induction false} ChunkPagesAreWindows(db: Database, select: seq<SelectItem>, size: nat, offset: nat)
    requires size > 0
    ensures var t := ChunkFrom(db, select, size, offset);
            t.pages == Windows(ResultSet(db, select), offset, size, |t.pages|)
    decreases |ResultSet(db, select)| - offset
  {
    var page := GetCall(db, PageState(select, offset, size));
    ChunkStep(db, select, size, offset, page);
    if page.Success? && |page.value| >= size {
      ChunkPagesAreWindows(db, select, size, offset + size);
    }
  }

  /** Whatever the database throws, the callback never gets an empty page
      and gets a full one every time but the last; if the run threw, it
      threw at its last fetch, and a translated exception. */
  lemma {:induction false} ChunkPageSizes(db: Database, select: seq<SelectItem>, size: nat, offset: nat)
    requires size > 0
    ensures var t := ChunkFrom(db, select, size, offset);
            (forall k :: 0 <= k < |t.pages| ==> t.pages[k] != []) &&
            (forall k :: 0 <= k < |t.pages| - 1 ==> |t.pages[k]| == size) &&
            (t.outcome.Fail? ==> |t.fetched| == |t.pages| + 1 && !t.outcome.error.kind.FromQueryScribe())
    decreases |ResultSet(db, select)| - offset
  {
    var page := GetCall(db, PageState(select, offset, size));
    ChunkStep(db, select, size, offset, page);
    if page.Success? && |page.value| >= size {
      ChunkPageSizes(db, select, size, offset + size);
    }
  }

  /** `chunk(size, callback)` whatever the database throws: fetch k is at
      offset `k * size` with limit `size`, and callback k gets exactly the
      rows of fetch k. */
  lemma ChunkFetchesInStrides(db: Database, select: seq<SelectItem>, size: int)
    requires size > 0
    ensures var t := Chunk(db, select, size);
            (forall k :: 0 <= k < |t.fetched| ==> t.fetched[k] == k * size) &&
            (forall k :: 0 <= k < |t.pages| ==>
               t.pages[k] == Window(ResultSet(db, select), Some(k * size), Some(size)))
  {
    var t := Chunk(db, select, size);
    ChunkFetchOrder(db, select, size, 0);
    ChunkPagesAreWindows(db, select, size, 0);
    StridesAt(0, size, |t.fetched|);
    WindowsAt(ResultSet(db, select), 0, size, |t.pages|);
  }

  /** When no fetch throws, the pages from `offset` on are the remaining rows
      cut into pieces of `size`, and the offsets fetched are `offset`,
      `offset + size`, ... */
  lemma {:induction false} ChunkWithoutErrors(db: Database, select: seq<SelectItem>, size: nat, offset: nat)
    requires size > 0
    requires offset <= |ResultSet(db, select)|
    requires forall o: nat :: o <= |ResultSet(db, select)| ==> Runs(db, PageState(select, o, size))
    ensures ChunkFrom(db, select, size, offset) ==
            Trace(Pages(ResultSet(db, select)[offset..], size),
                  Offsets(offset, |ResultSet(db, select)| - offset, size), Pass)
    decreases |ResultSet(db, select)| - offset
  {
    var rows := ResultSet(db, select);
    var rest := rows[offset..];
    assert Runs(db, PageState(select, offset, size));
    if |rest| > size {
      ChunkWithoutErrors(db, select, size, offset + size);
      assert rest[size..] == rows[offset + size..];
      assert rest[..size] == Window(rows, Some(offset), Some(size));
    } else if |rest| == size {
      assert Runs(db, PageState(select, offset + size, size));
      assert Offsets(offset + size, 0, size) == [offset + size];
      assert rest == Window(rows, Some(offset), Some(size));
    } else if |rest| > 0 {
      assert rest == Window(rows, Some(offset), Some(size));
    }
  }

  /** `chunk(size, callback)` over a database that throws nothing: the pages
      passed to the callback, put together, are the query's rows in order;
      every page holds `size` rows but the last, which holds 1 to `size`;
      page k is fetched at offset `k * size`; and one query more than there
      are pages, the empty last one, is issued exactly when the row count is
      a multiple of `size`. */
  lemma ChunkPartitionsRows(db: Database, select: seq<SelectItem>, size: int)
    requires size > 0
    requires forall o: nat :: o <= |ResultSet(db, select)| ==> Runs(db, PageState(select, o, size))
    ensures var t := Chunk(db, select, size);
            var rows := ResultSet(db, select);
            t.outcome == Pass &&
            Flatten(t.pages) == rows &&
            (forall k :: 0 <= k < |t.pages| ==> 0 < |t.pages[k]| <= size) &&
            (forall k :: 0 <= k < |t.pages| - 1 ==> |t.pages[k]| == size) &&
            (forall k :: 0 <= k < |t.fetched| ==> t.fetched[k] == k * size) &&
            (|t.fetched| == |t.pages| + 1 <==> |rows| == |t.pages| * size) &&
            (|t.fetched| == |t.pages| || |t.fetched| == |t.pages| + 1)
  {
    var rows := ResultSet(db, select);
    ChunkWithoutErrors(db, select, size, 0);
    assert rows[0..] == rows;
    PagesPartition(rows, size);
    OffsetsAt(0, |rows|, size);
    OffsetsOutnumberPages(rows, 0, size);
  }

  /** Five rows in chunks of two: pages of 2, 2 and 1 rows, fetched at
      offsets 0, 2 and 4, with no query for an empty page. */
  lemma ChunkFiveByTwo(db: Database, select: seq<SelectItem>)
    requires |ResultSet(db, select)| == 5
    requires forall o: nat :: o <= 5 ==> Runs(db, PageState(select, o, 2))
    ensures var t := Chunk(db, select, 2);
            var rows := ResultSet(db, select);
            t.pages == [rows[0..2], rows[2..4], rows[4..5]] && t.fetched == [0, 2, 4] && t.outcome == Pass
  {
    var rows := ResultSet(db, select);
    ChunkWithoutErrors(db, select, 2, 0);
    assert rows[0..] == rows;
    assert rows[4..] == rows[4..5];
    assert Pages(rows[4..], 2) == [rows[4..5]];
    assert rows[2..][..2] == rows[2..4] && rows[2..][2..] == rows[4..];
    assert Pages(rows[2..], 2) == [rows[2..4]] + Pages(rows[4..], 2);
    assert rows[..2] == rows[0..2];
    assert Pages(rows, 2) == [rows[0..2]] + Pages(rows[2..], 2);
    assert Offsets(4, 1, 2) == [4];
  }
}
