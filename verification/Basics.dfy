/** Result types and the error values that the registry's services return. */
module Basics {

  datatype Option<+T> = None | Some(value: T)

  datatype Error =
    | BlobNotFound
    | ManifestNotFound
    | TagNotFound
    | TagImmutable
    | UploadNotFound
    | UploadExpired
    | UploadConflict
    | UploadOutOfOrder
    | DigestMismatch
    | QuotaExceeded
    | PreconditionFailed
    | InvalidRange
    | NotImplemented
    | InvalidStateTransition
    | LeaseActive
    | EmptySession
    | NoSuchObject
    | NegativeOffset
    | Validation(field: string)
    | Conflict(resource: string)

  datatype Result<+T> = Success(value: T) | Failure(error: Error)

  /** The outcome of a call that returns an error or nothing. */
  datatype Outcome = Pass | Fail(error: Error)

  type byte = b: int | 0 <= b < 256
  type Bytes = seq<byte>

  function Max(a: int, b: int): int {
    if a < b then b else a
  }

  function Min(a: int, b: int): int {
    if a < b then a else b
  }
}
