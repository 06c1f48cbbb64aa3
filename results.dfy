/** Option and Result values shared by the modules of this model.  A Python
    exception raised by the modelled code becomes a `Failure` carrying the
    error that names its cause. */
module Results {

  datatype Option<+T> = None | Some(value: T)

  datatype Result<+T, +E> = Success(value: T) | Failure(error: E)
}
