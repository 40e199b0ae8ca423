/**
 * Go `error` values as the program builds and inspects them: gRPC statuses
 * returned by remote calls, messages built with fmt.Errorf / errors.New,
 * wrapping with %w or errors.Wrap, k8s.io aggregates, and the two sentinels
 * the program compares against (errIterator and flag.SkipValidation).
 */
module Errors {
  import opened Wrappers

  /** codes.AlreadyExists of google.golang.org/grpc/codes. */
  const AlreadyExistsCode: nat := 6

  datatype Error =
    | Status(code: nat, message: string)    // a gRPC status error from a remote call
    | Message(text: string)                 // an error with a message and no cause
    | Validation(text: string)              // a flag.ValidationError value
    | Wrapped(context: string, cause: Error) // "context: cause"
    | Aggregate(errors: seq<Error>)         // k8s.io/apimachinery utilerrors.Aggregate
    | IteratorSentinel                      // errIterator of pkg/securitycenter

  /** flag.SkipValidation: the ValidationError "skipping validation". */
  const SkipValidation: Error := Validation("skipping validation")

  /** utilerrors.NewAggregate: no error for an empty list, an aggregate otherwise. */
  function NewAggregate(errs: seq<Error>): (r: Option<Error>)
    ensures r.None? <==> errs == []
    ensures r.Some? ==> r.value.Aggregate? && r.value.errors == errs
  {
    if errs == [] then None else Some(Aggregate(errs))
  }

  /** errors.Is: the error itself, or anything it wraps or aggregates, equals the target. */
  predicate Is(e: Error, target: Error)
    decreases e
  {
    e == target ||
    match e
    case Wrapped(_, cause) => Is(cause, target)
    case Aggregate(errs) => exists i | 0 <= i < |errs| :: Is(errs[i], target)
    case _ => false
  }

  /** status.FromError(err) succeeds with code AlreadyExists. */
  predicate IsAlreadyExists(e: Error) {
    e.Status? && e.code == AlreadyExistsCode
  }
}
