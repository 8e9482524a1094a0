/**
 * The error values of the query tool and the result wrappers every other
 * module returns.  `ParseError` drops the line and column the reader
 * attaches; the I/O, glob and directory-walk errors belong to the
 * command-line front end and are not part of this model.
 */
module Errors {

  datatype Error =
    | ParseError(message: string)
    | QueryError(message: string)
    | RuntimeError(context: string, message: string)
    | TypeError(expected: string, actual: string)
      /** Model only: a bounded fixed-point iteration ran out of fuel. */
    | OutOfFuel
      /** Model only: an operation on floating-point numbers, which this model keeps opaque. */
    | Unmodelled(what: string)

  datatype Option<+T> = None | Some(value: T)

  datatype Result<+T> = Ok(value: T) | Err(error: Error)
  {
    predicate IsFailure() { Err? }

    function PropagateFailure<U>(): Result<U>
      requires Err?
    {
      Err(error)
    }

    function Extract(): T
      requires Ok?
    {
      value
    }
  }
}
