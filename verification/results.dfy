/** An optional value and a value-or-error outcome; the latter stands in
    for the source's raised exceptions. */
module Results {

  datatype Option<+T> = None | Some(value: T)

  datatype Result<+T, +E> = Success(value: T) | Failure(error: E)
}
