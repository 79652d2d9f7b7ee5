/** Outcomes of operations that may abort. */
module Outcomes {

  datatype Option<+T> = None | Some(value: T)

  /** Where the program aborts: a failed assertion, an unwrap of nothing, a bad index, and for the
      kernel side an access outside the memory it was given. */
  datatype Site =
    | KernelOutsideMemory
    | ReaderOutsideMemory
    | KernelReadsFreedPayload
    | KernelUnknownEntry
    | RingPointerMissing
    | BufferIdMismatch
    | DataExceedsBuffer
    | CompletionError
    | PartialBuffer
    | EmptyData
    | OwnerMismatch
    | StreamMissing
    | UnknownEvent
    | ZeroResult
    | NoPendingSend
    | ShortSend
    | BufferNotConsumed
    | RequestMismatch
    | NoBufferFlag
    | NothingToTake
    | DrainedBufferQueued
    | NothingClaimed
    | OverClaimed
    | EmptyWrite
    | SubmissionQueueFull
    | WaitAllOnMultishot

  datatype Outcome<+T> = Ok(value: T) | Panic(site: Site)
}
