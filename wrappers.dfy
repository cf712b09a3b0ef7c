/** Optional cells (pandas NaN / NaT) and the fatal errors of one consolidation run. */
module Wrappers {

  /** A cell that pandas may leave undefined (NaN, NaT). */
  datatype Option<+T> = None | Some(value: T) {
    /** `fillna(default)` on one cell. */
    function GetOr(default: T): T {
      if Some? then value else default
    }
  }

  /** Every exception the core raises; all of them abort the run. */
  datatype Error =
    | UnknownSource(kind: string)               // csv_type not in the marker mapping
    | MissingMarker                             // first line has no second field
    | ContentMismatch(expected: string, actual: string)
    | NoUnit                                    // empty table: no IKZ can be read
    | AmbiguousUnit                             // more than one IKZ inside one table
    | UnitMismatch                              // the four tables disagree on the IKZ
    | InsufficientYears                         // at most one distinct Jahr
    | DateParseError(text: string)              // Projektende not in dd.mm.yyyy form
    | MaskWithMissing                           // str.contains on an undefined cell used as a mask
    | ValueError(text: string)                  // int() or datetime() rejects its argument
    | TypeError(text: string)                   // iterating over a value that is not a list

  datatype Result<+T> = Ok(value: T) | Err(error: Error) {
    predicate IsFailure() {
      Err?
    }

    function PropagateFailure<U>(): Result<U>
      requires Err?
    {
      Err(error)
    }

    function Extract(): T
      requires Ok?
    {
      value
    }
  }
}
