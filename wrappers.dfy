/** Outcome types shared by every module of the model.

    Go functions here return `(T, error)` and a few of them panic (`must`, a
    nil pointer dereference).  A panic is a third outcome, not a precondition:
    the process dies, nothing after it runs.
 */
module Wrappers {

  /** The text of Go's panic on a nil pointer dereference. */
  const NilDereference := "invalid memory address or nil pointer dereference"

  datatype Option<+T> = None | Some(value: T)

  /** The outcome of a Go call: a value, an `error` (its `Error()` text), or a panic. */
  datatype Result<+T> = Ok(value: T) | Err(error: string) | Panic(reason: string)
  {
    /** The text a failed outcome carries. */
    function Message(): string
      requires !Ok?
    {
      if Err? then error else reason
    }
  }
}
