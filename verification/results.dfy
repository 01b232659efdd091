/** The wrappers used by every stage of the trim pipeline: `Option` for a
    value that may be absent and `Result` for a step that either produces a
    value or fails with an error. */
module Results {

  datatype Option<+T> = None | Some(value: T)

  datatype Result<+T, +E> = Ok(value: T) | Err(error: E)
}
