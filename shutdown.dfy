// Shutdown: ACPI shutdown of a running VM, with a forced fallback.

module Shutdown {
  import opened VmStates
  import opened FlowEvents

  const EntryStates: seq<VmState> := [Running, RunningStale]

  /** `expected_steps`: the shutdown itself. */
  function ExpectedSteps(entry: VmState): nat
  {
    1
  }

  /** `ShutdownFlow::transition`, arm by arm in match order. */
  function Transition(s: VmState, e: Event): (r: Step)
    ensures e == FlowStarted && IsInteractiveWait(s) ==> r == Step(Running, [ShutdownDomain])
    ensures s == Running && (e == ShutdownComplete || e == DomainStopped) ==> r == Step(Provisioned, [])
    ensures s == Running && e == ForceStop ==> r == Step(Running, [DestroyDomain])
    // a shutdown never removes artifacts and never reaches Virgin
    ensures CleanupArtifacts !in r.effects
    ensures s != Virgin ==> r.state != Virgin
    // outside Running only FlowStarted (from RunningStale) has an effect
    ensures s != Running && !(s == RunningStale && e == FlowStarted) ==> r == Step(s, [])
    // in Running, every other event leaves the state unchanged with no effects
    ensures s == Running && !(e == FlowStarted || e == ShutdownComplete || e == ForceStop || e == DomainStopped) ==>
      r == Step(s, [])
  {
    match (s, e)
    case (Running, FlowStarted) => Step(Running, [ShutdownDomain])
    case (RunningStale, FlowStarted) => Step(Running, [ShutdownDomain])
    case (Running, ShutdownComplete) => Step(Provisioned, [])
    case (Running, ForceStop) => Step(Running, [DestroyDomain])
    case (Running, DomainStopped) => Step(Provisioned, [])
    case _ => Step(s, [])
  }
}
