# MiniDB query execution, modelled in Dafny

MiniDB is a thin PHP facade. Application code builds a query fluently and
then runs it against a database. The SQL grammar comes from the QueryScribe
library, and statement execution comes from a connection library. This
project models the one piece of logic MiniDB owns on the read path: the
execution methods of its `Query` builder. These are `get`, `first`, `count`,
`avg`, `sum`, `min`, `max` and `chunk`, together with `performQuery`, which
translates the exceptions they throw. The same method bodies appear twice in
the repository, once in `src/Query.php` and once in the trait
`src/QueryParts/SelectTrait.php`. The trait relies on its host class's
`performQuery`.

Files:

- `wrappers.dfy`: Option, Result and Outcome. These stand in for PHP's
  null, thrown exceptions and void-or-throw.
- `exceptions.dfy`: the exception classes as a datatype, with cause
  chaining. `Translate` and `PerformQuery` model `performQuery`.
- `collaborators.dfy`: the grammar and the connection, kept abstract. A
  `Database` value fixes three things. Which rows the query's other clauses
  (table, where, order) match. Whether the base builder rejects an aggregate's
  column argument. Whether `compileSelect` or the connection throws for a
  given builder state. `Window` is SQL's OFFSET/LIMIT on the matched rows.
- `select_trait.dfy`: the select methods as functions of builder state. Each
  one yields the state the method leaves behind plus what the method returns
  or throws. `chunk`'s loop is the recursive `ChunkFrom`, which produces a
  trace. The file also has the references the trace is compared with: the
  partition `Pages` and the offsets `Offsets` of a run that nothing
  interrupts, the offsets `Strides` and pages `Windows` of a run of a given
  length, and the lemmas that relate them.
- `query.dfy`: the class `Query`. Its fields `select`, `offset` and `limit`
  are updated in place, as the PHP methods update `$this`. Each method is
  proved to follow the matching function in `select_trait.dfy`. `Chunk` is
  the imperative loop, with invariants tying it to `ChunkFrom`.

The `chunk` callback is modelled as a log: `pages` holds the rows of each
callback call, and `fetched` holds the offset of each page fetched.

Behaviour of the code that the model keeps:

- Both versions of `first()` change the query itself: `limit(1)` is applied
  to `$this` before compiling, and it stays applied when compiling throws.
- `performQuery` catches only the two QueryScribe exceptions and rewraps
  them. Anything the connection throws, a `DatabaseException` included,
  passes through unchanged.
- The base builder can reject an aggregate's column argument. This happens
  after `$this->select = []` has run but before offset and limit are cleared.
  In that case the model empties the select list, keeps offset and limit,
  and throws the translated exception, as the code does.
- After `chunk`, the query keeps the offset and limit of the last page it
  fetched.

## Model

| member | source | states |
|---|---|---|
| Exceptions.Translate | src/Query.php:209-213 | a QueryScribe invalid-argument error becomes a MiniDB InvalidArgumentException and an invalid-query error becomes an IncorrectQueryException, both keeping message and code and chaining the original as previous; any other exception is returned unchanged; no QueryScribe exception ever comes out |
| Exceptions.PerformQuery | src/Query.php:205-214 | the callback's value is returned untouched when nothing is thrown; a thrown exception comes out as its translation, never as a QueryScribe exception |
| Exceptions.TranslateKeepsRootCause | src/Query.php:210-212 | rewrapping keeps the original failure at the end of the cause chain |
| Exceptions.TranslateIdempotent | src/Query.php:207-213 | a MiniDB exception, or any other that is not QueryScribe's, passes through the catch clauses untouched, so translating an already translated exception changes nothing |
| Query.Query.constructor | src/Query.php:29-33 | a new query is bound to its database and starts with no select items, offset or limit |
| Query.Query.Get | src/Query.php:50-56 | returns exactly the rows the connection yields for the compiled state: the matched rows from the offset on, at most limit of them; the state is unchanged; compile errors come out translated |
| Query.Query.First | src/Query.php:65-72 | sets the query's own limit to 1 in place, keeps select and offset, and returns the first row at the offset or None |
| Query.Query.Aggregate | src/Query.php:85-89 | the shared aggregate body: the new state and result are those of SelectTrait.AggregateCall on the old state |
| Query.Query.Count | src/Query.php:83-91 | count (default column `*`): select becomes the single COUNT aliased `aggregate`, offset and limit are cleared, and the result is the database's count |
| Query.Query.Avg | src/Query.php:102-110 | as Count, with AVG |
| Query.Query.Sum | src/Query.php:121-129 | as Count, with SUM |
| Query.Query.Min | src/Query.php:140-148 | as Count, with MIN |
| Query.Query.Max | src/Query.php:159-167 | as Count, with MAX |
| Query.Query.Chunk | src/Query.php:178-196 | the callback log, fetched offsets and outcome equal the chunk trace of the old select list; select is unchanged; a size below one changes nothing else, otherwise the query is left at the last fetched offset with limit = size |
| SelectTrait.GetCall | src/QueryParts/SelectTrait.php:24-30 | get() succeeds exactly when neither grammar nor connection throws; then it returns the OFFSET/LIMIT window of the matched rows, never more than limit rows; a compile error takes precedence over an execution error and both come out translated |
| SelectTrait.FirstCall | src/QueryParts/SelectTrait.php:39-46 | first() leaves limit = 1 with select and offset kept; it succeeds exactly when neither grammar nor connection throws for that state, and then returns a row exactly when the offset lies inside the result, the row at the offset; otherwise it throws the translated compile error, or failing that the translated execution error (IncorrectQueryException for an invalid query, a DatabaseException unchanged) |
| SelectTrait.FirstIsHeadOfGet | src/QueryParts/SelectTrait.php:41-45 | unless the limit is 0, first() returns the first row get() returns, or None when get() returns none |
| SelectTrait.AggregateCall | src/QueryParts/SelectTrait.php:57-65 | whatever the earlier select list, offset and limit, an accepted column leaves select = [that aggregate aliased `aggregate`] with offset and limit null, and a successful call returns exactly the database's aggregate value; a rejected column leaves select empty and throws the translated error; a compile error, or failing that an execution error, of the aggregate state is thrown translated |
| SelectTrait.StaleOffsetHidesAggregate | src/QueryParts/SelectTrait.php:60-63 | with a positive offset left over, whatever the leftover limit, the single aggregate row would be skipped and the aggregate would read back as null; clearing offset and limit avoids this |
| SelectTrait.ReadAggregate | src/Query.php:89 | reading `['aggregate']` off the first row: an exception passes through unchanged, a row holding the alias gives its value, and a missing row or column gives null |
| Query.Query.FetchPage | src/Query.php:185 | one page of chunk: offset and limit are set to the page's, select is kept, and the rows are what get() returns for that state |
| SelectTrait.Chunk | src/QueryParts/SelectTrait.php:152-170 | a size below one throws InvalidArgumentException("Chunk size must be greater than zero") with no page fetched and no callback made; otherwise the loop runs from offset 0 |
| SelectTrait.ChunkStartsAtZero | src/QueryParts/SelectTrait.php:158-159 | a positive size always fetches, the first page at offset 0 |
| SelectTrait.ChunkFrom | src/QueryParts/SelectTrait.php:158-169 | the loop from an offset on: its turns are stated case by case by SelectTrait.ChunkStep, and its trace by the Chunk lemmas below |
| SelectTrait.ChunkStep | src/QueryParts/SelectTrait.php:158-169 | one turn of the loop: a thrown exception ends the run with it after this fetch; an empty page ends it without a callback; a short page is passed on and ends it; a full page is passed on and the run goes on at offset + size |
| SelectTrait.ChunkFetchOrder | src/QueryParts/SelectTrait.php:158-162 | whatever is thrown, the fetches go at offsets offset, offset+size, ... in that order (the reference Strides), and there is at most one more fetch than callback calls |
| SelectTrait.ChunkPagesAreWindows | src/QueryParts/SelectTrait.php:159-164 | whatever is thrown, the callback gets the fetched pages unmodified: the OFFSET/LIMIT windows of the matched rows at offset, offset+size, ... (the reference Windows) |
| SelectTrait.ChunkPageSizes | src/QueryParts/SelectTrait.php:159-168 | whatever is thrown, the callback never gets an empty page and gets a full one every time but the last; a run that threw threw at its last fetch, which went without a callback, and a translated exception |
| SelectTrait.ChunkFetchesInStrides | src/QueryParts/SelectTrait.php:158-164 | a chunk run from the start fetches page k at offset k*size with limit size, and callback k gets exactly the window of the matched rows there |
| SelectTrait.ChunkWithoutErrors | src/QueryParts/SelectTrait.php:158-169 | when nothing throws, the pages from an offset on are the remaining rows cut into pieces of `size`, fetched at offset, offset+size, ... |
| SelectTrait.ChunkPartitionsRows | src/Query.php:184-195 | over N rows with nothing thrown, the pages put together equal the N rows in order; every page but the last has exactly `size` rows, the last has 1 to `size`; page k is fetched at `k*size`; an empty page is fetched exactly when N is a multiple of `size` |
| SelectTrait.ChunkFiveByTwo | src/Query.php:184-195 | five rows in chunks of two give pages of 2, 2 and 1 rows at offsets 0, 2 and 4 |
| SelectTrait.PagesPartition | src/QueryParts/SelectTrait.php:164-168 | the reference cut of the rows concatenates back to them, with no empty piece, none longer than size and all but the last full |
| SelectTrait.OffsetsAt | src/QueryParts/SelectTrait.php:158-159 | the k-th fetched offset is start + k*size, and the number of fetches is the one with (count-1)*size <= N < count*size |
| SelectTrait.OffsetsOutnumberPages | src/QueryParts/SelectTrait.php:160-168 | there is one more fetch than callback calls exactly when N = pages * size |
| SelectTrait.StridesAt | src/QueryParts/SelectTrait.php:158 | the k-th of the reference offsets is start + k*size |
| SelectTrait.WindowsAt | src/QueryParts/SelectTrait.php:158-159 | the k-th of the reference pages is the window of `size` rows at start + k*size |

## Left out

- SQL generation is not part of this model. That covers QueryScribe's `compileSelect`, its grammars, table prefixing and `addTablesToColumnNames`. The grammar is only a function saying, for each builder state, whether compiling throws.
- The connection and the `Database` class (src/Database.php) are not part of this model. That covers DSN handling, grammar selection, the raw `insert`/`update`/`delete`/`statement` primitives and the rendering of `DatabaseException` messages. The connection is only the matched rows plus a function saying whether executing a state throws.
- `update`, `delete` and `handleException` are not in src/Query.php or src/QueryParts/SelectTrait.php and are not modelled. `makeEmptyCopy` (src/Query.php:38-41) only serves the base builder's cloning, which is not modelled.
- The builder clauses these methods do not touch (table, where, joins, order) are folded into the database's matched rows. Projection onto the select list is not modelled: a select list other than a single aggregate is taken to yield the matched rows.
- The base builder's `offset`, `limit` and `addCount`/`addAvg`/... are taken to be plain assignments and appends. The exception is the column check, which `Database.argumentError` abstracts.
- The table is fixed for the whole of a `chunk` call, so writes between pages are not modelled. The callback is modelled only as the `pages` log. An exception thrown by the callback, or a callback that changes the query, is not modelled.
- Query.Query.Count: returns the database's value as it comes. PHP's coercion to the declared `int` return type, and the TypeError raised when coercion fails, are not modelled because values are opaque here.
- Query.Query.Avg: the value is opaque. The database's float arithmetic, and the null it returns over no rows, are its own business.
- Query.Query.Chunk: `size` is an unbounded integer. PHP's `int` width is not modelled.
