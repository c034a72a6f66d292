/** Option and Result, used for lookups that may find nothing and for
    request checks that either accept a vote or produce a response. */
module Results {

  datatype Option<+T> = None | Some(value: T)

  datatype Result<+T, +E> = Ok(value: T) | Err(error: E)
}
