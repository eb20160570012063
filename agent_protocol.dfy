// The values exchanged between the host and the guest agent over the RPC
// channel, with the fields the modelled code reads and writes.

module AgentProtocol {

  /** When a provisioning script is meant to run; only the file name uses it. */
  datatype RunOn = System | Boot

  /** One script sent to the guest for provisioning. */
  datatype ProvisionScript = ProvisionScript(name: string, title: string, content: string, order: nat, runOn: RunOn)

  /** The result the guest returns for a `provision` call. */
  datatype ProvisionResult = ProvisionResult(success: bool, failedScript: string)

  /** One item of the event stream a `provision` call produces. */
  datatype ProvisionEvent = Stdout(line: string) | Stderr(line: string) | Done(exitCode: int)
}
