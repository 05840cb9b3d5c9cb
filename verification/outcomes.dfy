/** Missing values and failures of the aggregation routines.

    pandas represents an undefined aggregate (the mean of no values, the
    maximum of an empty column) as NaN; those become `None` here.  An
    aggregation that stops with an exception becomes a `Fail` carrying the
    reason. */
module Outcomes {

  /** A value that pandas may report as NaN / NaT. */
  datatype Option<+T> = None | Some(value: T)

  /** Why an aggregation stops instead of producing a table. */
  datatype Failure =
    | NoRows              // `iloc[0]` / `iloc[-1]` on an empty table
    | EmptyDay(day: int)  // `iloc[0]` on the rows of a calendar day without events
    | EmptyRange          // the per-day loop never ran, so the result is unbound
    | DateNotFound(day: int)  // `float()` of an empty selection

  datatype Result<+T> = Ok(value: T) | Fail(failure: Failure)
}
