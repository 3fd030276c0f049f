/** Value types shared by every module: Java's nullable references and the
    exceptions the service layer throws, modelled as values. */
module Common {

  /** A Java reference that may be `null` (`None`). */
  datatype Option<+T> = None | Some(value: T)

  /** The exceptions thrown by the services. Only the exception's kind and its
      message are modelled. */
  datatype Error =
    | IllegalArgument(message: string)       // java.lang.IllegalArgumentException
    | ResourceNotFound(message: string)      // ResourceNotFoundException
    | CategoryServiceError(message: string)  // CategoryServiceException

  /** The outcome of a service method that returns an entity or throws. */
  datatype Result<+T> = Ok(value: T) | Err(error: Error)

  /** The outcome of a `void` service method. */
  datatype Outcome = Success | Failure(error: Error)
}
