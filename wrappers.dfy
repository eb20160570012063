// Shared result types: the optional values and the error enum of the rum crate.

module Wrappers {

  datatype Option<T> = None | Some(value: T)

  datatype Result<T> = Ok(value: T) | Err(error: RumError)
  {
    predicate IsOk() { Ok? }
  }

  /** The variants of `RumError` that the modelled code returns. Message texts
      are not modelled; payloads that a caller inspects are kept. */
  datatype RumError =
    | Validation
    | RequiresRestart(name: string)
    | Libvirt
    | SshNotReady(name: string)
    | Io
    | AgentTimeout
    | ProvisionFailed(script: string)
    | ConfigLoad
    | ConfigWrite
}
