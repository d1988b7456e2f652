/** Optional values and failure results shared by every module of the model. */
module Wrappers {

  /** `std::optional`. */
  datatype Option<+T> = None | Some(value: T) {
    function GetOr(default: T): T {
      if Some? then value else default
    }
  }

  /** A value, or the error that the source raises as an exception or returns as a code. */
  datatype Result<+T, +E> = Success(value: T) | Failure(error: E) {
    predicate IsFailure() {
      Failure?
    }

    function PropagateFailure<U>(): Result<U, E>
      requires Failure?
    {
      Failure(error)
    }

    function Extract(): T
      requires Success?
    {
      value
    }
  }

  /** The result codes of the client. */
  datatype Code =
    | Ok
    | UnexpectedError
    | InvalidSdkKey
    | JsonFailureDataAdapterResult
    | JsonFailureInitializeRequestArgs
    | JsonFailureInitializeResponse
    | JsonFailureLogEventResponse
    | JsonFailureLogEventRequestArgs
    | JsonFailureRetryableEventPayload
    | JsonFailureStatsigUser
    | JsonFailureNoDeserializerFound
    | JsonFailureNoSerializerFound
    | NetworkFailureBadStatusCode
    | ClientUninitialized
    | FileFailureDataAdapterResult
    | FileFailureStableID
    | FileFailureRetryableEventPayload
    | ShutdownFailureDanglingThreads
    | SharedPointerLost
}
