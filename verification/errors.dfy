/** Go `error` values as the two services build them.

    A leaf comes from `fmt.Errorf` without `%w`, from the database driver or
    from a gRPC status; `fmt.Errorf(context + ": %w", inner)` wraps a cause and
    keeps it reachable, as `errors.Is` sees it. `Text` is `err.Error()`, the
    string the transport boundaries compare. */
module Errors {

  datatype Error =
    | Plain(msg: string)                       // a leaf that is not a lookup miss
    | Missing(msg: string)                     // the leaf a repository returns for "no rows"
    | Wrapped(context: string, inner: Error)   // fmt.Errorf(context + ": %w", inner)

  /** `err.Error()` */
  function Text(e: Error): string {
    match e
    case Plain(m) => m
    case Missing(m) => m
    case Wrapped(c, i) => c + ": " + Text(i)
  }

  /** `errors.Is(err, notFound)`: some error on the wrap chain is a lookup miss. */
  predicate IsMissing(e: Error) {
    match e
    case Plain(_) => false
    case Missing(_) => true
    case Wrapped(_, i) => IsMissing(i)
  }

  /** A failed database statement: the driver's message, never a lookup miss. */
  function DriverError(msg: string): (e: Error)
    ensures Text(e) == msg && !IsMissing(e)
  {
    Plain(msg)
  }

  /** The driver's answer to a second row with the same primary key; its exact
      wording (which names the constraint) is not modelled. */
  const UniqueViolation: Error := Plain("duplicate key value violates unique constraint")

  /** A wrapped error's text starts with its context and ": ", so it can never
      equal a string shorter than that. */
  lemma WrappedTextIsLonger(c: string, e: Error)
    ensures |Text(Wrapped(c, e))| >= |c| + 2
    ensures Text(Wrapped(c, e))[..|c| + 2] == c + ": "
  {
  }
}
