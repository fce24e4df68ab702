/** Option, Result and the error conditions the CMOR table readers can raise. */
module Outcomes {

  /** Python's `None` or a value. */
  datatype Option<+T> = None | Some(value: T)

  /** What makes a table load fail; each constructor names the Python exception it stands for. */
  datatype Error =
    | MissingKey(key: string)         // KeyError when indexing a JSON object
    | WrongShape(key: string)         // TypeError / AttributeError: a JSON value of another shape than the code expects
    | UnrenderedObject(key: string)   // str() of a nested JSON object (rendering not modelled)
    | UnknownDimension(name: string)  // KeyError on the shared coordinate map
    | UnknownTable(name: string)      // KeyError on the table map (CMIP5 variable before its table)
    | MissingColon(line: string)      // ValueError from line.index(':') in the CMIP5 line reader
    | NoLineRead                      // AttributeError: _last_line_read read before it was ever set

  /** A value or the error that aborted the computation; usable with `:-`. */
  datatype Result<+T> = Ok(value: T) | Err(error: Error) {
    predicate IsFailure() {
      Err?
    }

    function PropagateFailure<U>(): Result<U>
      requires Err?
    {
      Err(error)
    }

    function Extract(): T
      requires Ok?
    {
      value
    }
  }
}
