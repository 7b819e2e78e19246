/** Java's exceptions and outcomes as values: what a call of the database layer or the mapper
    either returns or throws. */
module Exceptions {

  datatype Option<+T> = None | Some(value: T)

  /** The exceptions the database layer and the mapper throw or let through, by Java class. */
  datatype Exc =
    | IllegalState(message: string)        // java.lang.IllegalStateException
    | IllegalArgument(message: string)     // java.lang.IllegalArgumentException
    | NumberFormat(input: Option<string>)  // java.lang.NumberFormatException from Long.parseLong
    | Sql(errorCode: int)                  // java.sql.SQLException raised by the driver
    | Runtime(message: string, cause: Exc) // java.lang.RuntimeException wrapping a cause
    | Unchecked(message: string)           // any other unchecked exception of caller-supplied code

  /** The outcome of a call that cannot block: a value, or an exception. */
  datatype Result<+T> = Ok(value: T) | Threw(exc: Exc) {
    predicate IsFailure() { Threw? }

    function PropagateFailure<U>(): Result<U>
      requires Threw?
    {
      Threw(exc)
    }

    function Extract(): T
      requires Ok?
    {
      value
    }
  }

  /** The outcome of a call that may wait on the pool's queue: on a sequential run a call
      that would wait forever is reported as Blocked. */
  datatype Call<+T> = Done(value: T) | Failed(exc: Exc) | Blocked
}
