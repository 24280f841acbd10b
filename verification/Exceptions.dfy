/**
 * The exceptions that cross the mediator's boundary. Only the shape that the
 * dispatcher inspects is modelled: a TargetInvocationException with its
 * possibly-null inner exception; everything else is an opaque kind.
 */
module Exceptions {
  import opened Wrappers

  datatype Exception =
      /** System.Reflection.TargetInvocationException, the wrapper MethodInfo.Invoke adds. */
    | TargetInvocation(inner: Option<Exception>)
      /** System.NullReferenceException, raised by awaiting a null task. */
    | NullReference
      /** CQR.Exceptions.NoAssembliesFoundException, raised by LoadHandlers. */
    | NoAssembliesFound
      /** Any other exception, raised by a handler or by the instance provider. */
    | Other(kind: string, payload: string)

  /** What MethodInfo.Invoke throws when the invoked method itself throws `e`. */
  function Wrap(e: Exception): Exception
  {
    TargetInvocation(Some(e))
  }
}
