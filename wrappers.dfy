/** Option and Result types, and the exceptions the query builder throws. */
module Wrappers {

  datatype Option<+T> = None | Some(value: T)

  /** The two exceptions `BaseQuery` itself throws. */
  datatype Failure =
    | InvalidArgument(message: string)   // \InvalidArgumentException from where()
    | ResourceNotFound(message: string)  // ResourceNotFoundException from get()

  datatype Result<+T> = Ok(value: T) | Err(error: Failure)

  const ArityMessage: string := "Minimum of 2 arguments, maximum of 3"
  const NotFoundMessage: string := "Resource(s) not found."
}
