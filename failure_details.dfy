/**
 * The isolated worker's conversion of an exception into the failure-details message of the
 * durable-task protocol: the exception's type name, message and stack trace, and the
 * details of its inner exception, nested the same way.
 */
module FailureDetails {
  import opened Wrappers

  /** An exception as the converter reads it; the stack trace is absent for an exception never thrown. */
  datatype Exception = Exception(
    typeFullName: string,
    message: string,
    stackTrace: Option<string>,
    innerException: Option<Exception>)

  /** The failure-details message. */
  datatype TaskFailureDetails = TaskFailureDetails(
    errorType: string,
    errorMessage: string,
    stackTrace: Option<string>,
    innerFailure: Option<TaskFailureDetails>,
    isNonRetriable: bool)

  /** No exception gives no details; otherwise the fields are copied and the inner exception converted. */
  function TaskFailureFromException(fromException: Option<Exception>): (r: Option<TaskFailureDetails>)
    ensures r.Some? <==> fromException.Some?
    ensures r.Some? ==>
      && r.value.errorType == fromException.value.typeFullName
      && r.value.errorMessage == fromException.value.message
      && r.value.stackTrace == fromException.value.stackTrace
      && !r.value.isNonRetriable
    ensures r.Some? ==> (r.value.innerFailure.Some? <==> fromException.value.innerException.Some?)
    decreases fromException
  {
    match fromException
    case None => None
    case Some(e) =>
      Some(TaskFailureDetails(
        e.typeFullName,
        e.message,
        e.stackTrace,
        TaskFailureFromException(e.innerException),
        false))
  }

  // ---------------------------------------------------------------------------------------
  // Chains
  // ---------------------------------------------------------------------------------------

  /** The number of exceptions in a chain of inner exceptions. */
  function ExceptionDepth(e: Option<Exception>): nat
    decreases e
  {
    match e
    case None => 0
    case Some(x) => 1 + ExceptionDepth(x.innerException)
  }

  /** The number of levels in a chain of inner failures. */
  function FailureDepth(d: Option<TaskFailureDetails>): nat
    decreases d
  {
    match d
    case None => 0
    case Some(x) => 1 + FailureDepth(x.innerFailure)
  }

  /** Every level of a failure chain may be retried. */
  predicate AllRetriable(d: Option<TaskFailureDetails>)
    decreases d
  {
    match d
    case None => true
    case Some(x) => !x.isNonRetriable && AllRetriable(x.innerFailure)
  }

  /** The exception a failure chain describes: the reading that inverts the conversion. */
  function ExceptionFromFailure(d: Option<TaskFailureDetails>): (e: Option<Exception>)
    ensures e.Some? <==> d.Some?
    decreases d
  {
    match d
    case None => None
    case Some(x) =>
      Some(Exception(x.errorType, x.errorMessage, x.stackTrace, ExceptionFromFailure(x.innerFailure)))
  }

  // ---------------------------------------------------------------------------------------
  // Properties
  // ---------------------------------------------------------------------------------------

  /** The failure chain is exactly as long as the exception chain. */
  lemma {:induction false} ConversionKeepsDepth(e: Option<Exception>)
    ensures FailureDepth(TaskFailureFromException(e)) == ExceptionDepth(e)
    decreases e
  {
    match e
    case None =>
    case Some(x) => ConversionKeepsDepth(x.innerException);
  }

  /** No level of a converted chain is marked non-retriable. */
  lemma {:induction false} ConversionAllRetriable(e: Option<Exception>)
    ensures AllRetriable(TaskFailureFromException(e))
    decreases e
  {
    match e
    case None =>
    case Some(x) => ConversionAllRetriable(x.innerException);
  }

  /** Nothing is lost: every field at every level can be read back from the failure chain. */
  lemma {:induction false} ConversionRoundTrip(e: Option<Exception>)
    ensures ExceptionFromFailure(TaskFailureFromException(e)) == e
    decreases e
  {
    match e
    case None =>
    case Some(x) => ConversionRoundTrip(x.innerException);
  }

  /** A failure chain is the conversion of some exception exactly when all its levels may be retried. */
  lemma {:induction false} ConvertedIffAllRetriable(d: Option<TaskFailureDetails>)
    ensures TaskFailureFromException(ExceptionFromFailure(d)) == d <==> AllRetriable(d)
    decreases d
  {
    match d
    case None =>
    case Some(x) =>
      ConvertedIffAllRetriable(x.innerFailure);
      if AllRetriable(d) {
        assert TaskFailureFromException(ExceptionFromFailure(x.innerFailure)) == x.innerFailure;
      }
  }
}
