/** Outcomes of operations that can fail: `Option` for a value that may be
    absent and `Result` for a value or the error the Python code would raise. */
module Results {

  datatype Option<+T> = None | Some(value: T)

  datatype Result<+T, +E> = Ok(value: T) | Err(error: E)
}
