/** Failure-compatible results for the reshaping pipeline. Every failure
    aborts the whole step that raised it; nothing is recovered locally. */
module Outcomes {

  datatype Option<+T> = None | Some(value: T)

  /** Why a reshaping step fails. */
  datatype Error =
    | MissingColumn(name: string)          // a KeyError from a column lookup or a drop
    | NotNumeric(name: string, row: nat)   // pd.to_numeric rejects the cell at that row
    | NotADate(row: nat)                   // a Date cell that is neither date text nor a date
    | NoRows                               // etf_flow.Date[0] on a table without rows

  datatype Result<+T> = Ok(value: T) | Err(error: Error) {

    predicate IsFailure() {
      Err?
    }

    function PropagateFailure<U>(): Result<U>
      requires Err?
    {
      Err(error)
    }

    function Extract(): T
      requires Ok?
    {
      value
    }
  }
}
