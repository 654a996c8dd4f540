/** Failure kinds raised by `DataAnalysis.data_reduction`, and a result type
    carrying either a value or the kind of exception that was raised. */
module Results {

  /** `TypeError` and `ValueError` are raised by the reduction code itself;
      `ShapeError` stands for numpy's failure to reshape an array into rows
      of the requested width (which numpy raises as a ValueError). */
  datatype ErrorKind = TypeError | ValueError | ShapeError

  datatype Option<+T> = None | Some(value: T)

  /** A value, or the exception that ended the computation. Usable with `:-`,
      which stops at the first exception as Python does. */
  datatype Result<+T> = Ok(value: T) | Err(kind: ErrorKind) {

    predicate IsFailure() {
      Err?
    }

    function PropagateFailure<U>(): Result<U>
      requires Err?
    {
      Err(kind)
    }

    function Extract(): T
      requires Ok?
    {
      value
    }
  }
}
