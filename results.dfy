/** Outcomes of the calendar pipeline: a value, or the panic the Rust code
    would raise (an `unwrap` on a failed parse, an out-of-range slice or
    index). */
module Results {

  /** What made the program panic. */
  datatype Failure =
    | BadDate              // `parse_and_remainder(..).unwrap()` on a value that is not a date
    | SliceOutOfRange      // `text[start..end]` with a bound past the end of the text
    | LineIndexOutOfRange  // `lines[day]` with `day == lines.len()`

  datatype Result<+T> = Ok(value: T) | Err(failure: Failure)

  datatype Option<+T> = None | Some(value: T)
}
