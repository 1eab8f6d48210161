/** Results and error codes shared by the driver modules (kernel/error.hpp). */
module Wrappers {
  datatype Option<+T> = None | Some(value: T)

  /** The codes of `Error::Code` that the modelled code returns. */
  datatype Error =
    | Success
    | Full
    | NoEnoughMemory
    | InvalidSlotID
    | InvalidEndpointNumber
    | TransferRingNotSet
    | AlreadyAllocated
    | NotImplemented
    | InvalidDescriptor
    | NoCorrespondingSetupStage
    | TransferFailed
    | InvalidPhase
    | UnknownXHCISpeedID
    | NoWaiter
}
