/** Result and option types shared by the components. */
module Outcomes {
  datatype Option<+T> = None | Some(value: T)

  datatype Error =
    | InvalidPattern
    | InvalidEventType
    | PayloadTooLarge
    | BusFull
    | SubscriberNotFound
    | NotFound
    | InvalidRange
    | InvalidInput
    | ChecksumMismatch
    | UploadNotFound
    | UploadAborted
    | UploadCompleted
    | QuotaExceeded
    | SizeMismatch
    | Panic

  datatype Result<+T> = Ok(value: T) | Err(error: Error)
}
