/** The error values the breaker and the retry loops classify, reduced to what the
    classification looks at: the two context sentinels `errors.Is` finds in the chain
    and the gRPC status, if `status.FromError` finds one. */
module Errors {

  datatype Option<+T> = None | Some(value: T)

  datatype Code =
    | OK | Canceled | Unknown | InvalidArgument | DeadlineExceeded | NotFound
    | AlreadyExists | PermissionDenied | ResourceExhausted | FailedPrecondition
    | Aborted | OutOfRange | Unimplemented | Internal | Unavailable | DataLoss
    | Unauthenticated | Other(number: nat)

  datatype Error = Error(isCanceled: bool, isDeadline: bool, status: Option<Code>)

  /** A plain Go error: no status and no context sentinel (`fmt.Errorf("...")`). */
  const PLAIN := Error(false, false, None)

  /** How a context ends: its caller cancels it, or its deadline passes. */
  datatype ContextEnd = GivenUp | TimedOut

  /** What `ctx.Err()` returns then. */
  function ContextError(end: ContextEnd): Error { Error(end.GivenUp?, end.TimedOut?, None) }

  function StatusError(code: Code): Error { Error(false, false, Some(code)) }

  /** The breaker's verdict on the outcome of a request. */
  predicate IsFailure(outcome: Option<Error>) {
    match outcome
    case None => false
    case Some(e) =>
      !(e.isCanceled || e.isDeadline) &&
      match e.status
      case None => true
      case Some(code) =>
        !(code.OK? || code.Canceled? || code.InvalidArgument? || code.NotFound? || code.AlreadyExists?
          || code.PermissionDenied? || code.Unauthenticated? || code.FailedPrecondition?
          || code.OutOfRange? || code.Unimplemented?)
  }

  /** The retry interceptor's verdict: only known transient status codes. */
  predicate ClientRetryable(e: Error) {
    match e.status
    case None => false
    case Some(code) =>
      code.Unavailable? || code.DeadlineExceeded? || code.ResourceExhausted? || code.Aborted? || code.Internal?
  }

  /** The programmatic handler's verdict: plain errors are retried too. */
  predicate HandlerRetryable(e: Error) {
    match e.status
    case Some(code) =>
      code.Unavailable? || code.DeadlineExceeded? || code.ResourceExhausted? || code.Aborted?
      || code.OutOfRange? || code.Internal? || code.DataLoss?
    case None => !(e.isCanceled || e.isDeadline)
  }

  /** An ended context shows as the sentinel of how it ended, which is neither retried nor counted. */
  lemma ContextErrorMeans(end: ContextEnd)
    ensures ContextError(end) == if end.GivenUp? then Error(true, false, None) else Error(false, true, None)
    ensures !ClientRetryable(ContextError(end)) && !HandlerRetryable(ContextError(end)) && !IsFailure(Some(ContextError(end)))
  {
  }

  /** What the breaker counts: an error that is not the caller's doing, with no status or one
      that speaks of the server. */
  lemma FailureMeans(e: Error)
    ensures !IsFailure(None)
    ensures IsFailure(Some(e)) <==>
      && !e.isCanceled && !e.isDeadline
      && (e.status.None? || e.status.value.Other?
          || e.status.value in {Code.Unknown, DeadlineExceeded, ResourceExhausted, Aborted, Internal, Unavailable, DataLoss})
  {
  }

  /** The handler retries all the interceptor does, two more statuses, and plain errors. */
  lemma RetryableMeans(e: Error)
    ensures ClientRetryable(e) <==>
      e.status.Some? && e.status.value in {Unavailable, DeadlineExceeded, ResourceExhausted, Aborted, Internal}
    ensures HandlerRetryable(e) <==>
      || ClientRetryable(e) || e.status == Some(OutOfRange) || e.status == Some(DataLoss)
      || (e.status.None? && !e.isCanceled && !e.isDeadline)
  {
  }
}
