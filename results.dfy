/** Absence and failure values shared by the model: Python's `None` becomes
    `None`, and an exception the source raises becomes a `Failure`. */
module Results {

  datatype Option<T> = None | Some(value: T)

  datatype Result<T, E> = Success(value: T) | Failure(error: E)
}
