/**
 Outcomes of the modelled Python code: either a value, or the exception the
 code would raise at that point. The scripts never catch these exceptions
 (except `parse_month_input`, which re-raises), so an `Err` ends the run.
 */
module Results {

  /** A key that may be absent from a JSON record: `None` is an absent key. */
  datatype Option<+T> = None | Some(value: T)

  /** The exceptions the modelled code can raise, by Python class. */
  datatype PyError =
    | ValueError(reason: string)
    | OverflowError(reason: string)
    | KeyError(key: string)

  datatype Result<+T> = Ok(value: T) | Err(error: PyError) {

    predicate IsFailure() {
      Err?
    }

    function PropagateFailure<U>(): Result<U>
      requires Err?
    {
      Err(error)
    }

    function Extract(): T
      requires Ok?
    {
      value
    }
  }
}
