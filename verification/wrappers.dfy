/** Failure-carrying datatypes shared by the whole model.

    The Python source signals failure by raising exceptions; here each raise
    becomes an `Err` value naming the exception class the source would raise,
    so that callers (and lemmas) can tell the error paths apart.
 */
module Wrappers {

  /** An optional value: a file's text when the file exists. */
  datatype Option<+T> = None | Some(value: T)

  /** The exception classes the modelled code raises. */
  datatype Error =
    | ValueError(what: string)     // bad option string, unparsable id, shape mismatch
    | IndexError(what: string)     // indexing past the end of an array
    | FileNotFound(name: string)   // a named array or table is absent from the folder
    | KeyError(key: string)        // a required key is absent from a document

  /** Either a value or the exception that replaced it. Usable with `:-`. */
  datatype Result<+T> = Ok(value: T) | Err(error: Error) {

    predicate IsFailure() {
      Err?
    }

    function PropagateFailure<U>(): Result<U>
      requires Err?
    {
      Err(error)
    }

    function Extract(): T
      requires Ok?
    {
      value
    }
  }
}
