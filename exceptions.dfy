/** The exceptions that reach a caller of the query builder, and the
    translation that `performQuery` applies to whatever its closure throws
    (src/Query.php:205-214). */
module Exceptions {
  import opened Wrappers

  /** Exception classes: the two the QueryScribe library throws, the four
      MiniDB defines, and any other Throwable, named by its class. */
  datatype Kind =
    | ScribeInvalidArgument    // QueryScribe InvalidArgumentException
    | ScribeInvalidQuery       // QueryScribe InvalidQueryException
    | InvalidArgument          // MiniDB InvalidArgumentException
    | IncorrectQuery           // MiniDB IncorrectQueryException
    | DatabaseError            // MiniDB DatabaseException
    | InvalidReturnValue       // MiniDB InvalidReturnValueException
    | Foreign(className: string)  // e.g. TypeError
  {
    predicate FromQueryScribe() {
      ScribeInvalidArgument? || ScribeInvalidQuery?
    }
  }

  /** A thrown exception: class, message, code and the chained cause. */
  datatype Exception = Exception(kind: Kind, message: string, code: int, previous: Option<Exception>)

  /** The exception `performQuery` lets escape when its closure throws `e`:
      the two QueryScribe kinds are rewrapped into their MiniDB counterparts
      keeping message and code and chaining `e` as the cause; everything else
      is rethrown as it is. */
  function Translate(e: Exception): (r: Exception)
    ensures !r.kind.FromQueryScribe()
    ensures e.kind.FromQueryScribe() ==>
              r.message == e.message && r.code == e.code && r.previous == Some(e)
    ensures !e.kind.FromQueryScribe() ==> r == e
    ensures r.kind.InvalidArgument? <==> e.kind.ScribeInvalidArgument? || e.kind.InvalidArgument?
    ensures r.kind.IncorrectQuery? <==> e.kind.ScribeInvalidQuery? || e.kind.IncorrectQuery?
  {
    match e.kind
    case ScribeInvalidArgument => Exception(InvalidArgument, e.message, e.code, Some(e))
    case ScribeInvalidQuery => Exception(IncorrectQuery, e.message, e.code, Some(e))
    case _ => e
  }

  /** `performQuery(callback)`, given what the callback did: its value comes
      back untouched, its exception comes back translated. */
  function PerformQuery<T>(outcome: Result<T, Exception>): (r: Result<T, Exception>)
    ensures r.Success? <==> outcome.Success?
    ensures r.Success? ==> r.value == outcome.value
    ensures r.Failure? ==> r.error == Translate(outcome.error) && !r.error.kind.FromQueryScribe()
  {
    match outcome
    case Success(v) => Success(v)
    case Failure(e) => Failure(Translate(e))
  }

  /** The innermost exception of a cause chain. */
  function RootCause(e: Exception): Exception
    decreases e
  {
    match e.previous
    case None => e
    case Some(p) => RootCause(p)
  }

  /** Rewrapping never hides the original failure: the end of the cause chain
      is the same before and after translation. */
  lemma TranslateKeepsRootCause(e: Exception)
    ensures RootCause(Translate(e)) == RootCause(e)
  {
  }

  /** A MiniDB exception, or any other that is not QueryScribe's, passes
      through the catch clauses untouched; in particular what
      `performQuery` lets escape is a fixed point of the translation. */
  lemma TranslateIdempotent(e: Exception)
    ensures Translate(Translate(e)) == Translate(e)
  {
  }
}
