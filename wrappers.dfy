/** Option, and the outcome of a conversion that Python may abort with an exception. */
module Wrappers {

  datatype Option<+T> = None | Some(value: T)

  /** `IndexError` is the exception Python raises when `row_cells[i]` indexes
      past the end of the cell tuple a new table row holds, that is when a data
      row has more cells than the table has columns; it aborts the whole
      conversion. */
  datatype Outcome<+T> = Ok(value: T) | IndexError
}
