/** Failure-compatible wrappers and the error taxonomy of the record-to-feature
    conversion. Every Python exception the conversion can raise becomes one
    `Error` constructor; nothing is ever swallowed. */
module Results {

  /** Python's `None` versus a present value. */
  datatype Option<+T> = None | Some(value: T)

  /** One constructor per way `parseProperties` and its helpers can raise. */
  datatype Error =
      /** `p[name]` on an attribute the record does not carry (KeyError). */
    | MissingField(field: string)
      /** `int(text)` on text that is not a base-10 integer literal (ValueError). */
    | MalformedNumber(text: string)
      /** The advisory hour token is not 3-4 digits (the ValueError of line 144). */
    | HourFragment(advisory: string)
      /** The reformatted advisory hour disagrees with the label (the ValueError of line 141). */
    | HourMismatch(formatted: string, shown: string)
      /** `ADVDATE.split(" ", 1)[1]` on a value without a space (IndexError). */
    | NoDateAfterHour(advisory: string)
      /** The date parser returned `None`, so `.replace(...)` fails (AttributeError). */
    | UnparsedDate(text: string)
      /** `datetime.datetime(year, month, day, hour)` out of range (ValueError). */
    | InvalidDate(year: int, month: int, day: int, hour: int)

  /** A value or the error that aborted its computation; usable with `:-`. */
  datatype Result<+T> = Ok(value: T) | Err(error: Error) {

    predicate IsFailure() {
      Err?
    }

    function PropagateFailure<U>(): Result<U>
      requires Err?
    {
      Err(error)
    }

    function Extract(): T
      requires Ok?
    {
      value
    }
  }
}
