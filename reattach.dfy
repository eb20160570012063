// Reattach: connect to a VM that is already running.

module Reattach {
  import opened VmStates
  import opened FlowEvents

  const EntryStates: seq<VmState> := [Running]

  /** `expected_steps`: ready at once. */
  function ExpectedSteps(entry: VmState): nat
  {
    1
  }

  /** `ReattachFlow::transition`: every arm requires Running. */
  function Transition(s: VmState, e: Event): (r: Step)
    ensures s != Running ==> r == Step(s, [])
    ensures s == Running && e == ForceStop ==> r == Step(Provisioned, [ShutdownDomain])
    ensures s == Running && e == InitShutdown ==> r == Step(Running, [ShutdownDomain])
    ensures s == Running && e == FlowStarted ==> r == Step(Running, [StartServices])
    ensures s == Running && e == ServicesStarted ==> r == Step(Running, [])
    ensures s == Running && e == ShutdownComplete ==> r == Step(Provisioned, [])
    // in Running, every other event leaves the state unchanged with no effects
    ensures s == Running && !(e == FlowStarted || e == ServicesStarted || e == InitShutdown || e == ShutdownComplete || e == ForceStop) ==>
      r == Step(s, [])
    // reattaching never destroys the domain and never removes artifacts
    ensures DestroyDomain !in r.effects && CleanupArtifacts !in r.effects
    ensures r.state == s || (s == Running && r.state == Provisioned)
  {
    match (s, e)
    case (Running, FlowStarted) => Step(Running, [StartServices])
    case (Running, ServicesStarted) => Step(Running, [])
    case (Running, InitShutdown) => Step(Running, [ShutdownDomain])
    case (Running, ShutdownComplete) => Step(Provisioned, [])
    case (Running, ForceStop) => Step(Provisioned, [ShutdownDomain])
    case _ => Step(s, [])
  }
}
