// Destroy: force-stop the VM, undefine it and remove every artifact.

module Destroy {
  import opened VmStates
  import opened FlowEvents

  /** Every state except Virgin: there is nothing to destroy in Virgin. */
  const EntryStates: seq<VmState> := [ImageCached, Prepared, PartialBoot, Provisioned, Running, RunningStale]

  /** `expected_steps`: destroy and cleanup for a running VM, cleanup only otherwise. */
  function ExpectedSteps(entry: VmState): nat
  {
    match entry
    case Running => 2
    case RunningStale => 2
    case _ => 1
  }

  /** `DestroyFlow::transition`, arm by arm in match order. */
  function Transition(s: VmState, e: Event): (r: Step)
    // a running VM is destroyed first; anything else goes straight to cleanup
    ensures e == FlowStarted ==>
      r == if IsInteractiveWait(s) then Step(Running, [DestroyDomain]) else Step(s, [CleanupArtifacts])
    ensures e == DestroyComplete || e == DomainStopped ==> r == Step(Virgin, [CleanupArtifacts])
    ensures e == CleanupComplete ==> r == Step(Virgin, [])
    // only the two destructive effects are ever emitted, at most one per event
    ensures forall x | x in r.effects :: x == DestroyDomain || x == CleanupArtifacts
    ensures |r.effects| <= 1
    // once Virgin, the flow stays Virgin
    ensures s == Virgin ==> r.state == Virgin
    // every other event leaves the state unchanged with no effects
    ensures !(e == FlowStarted || e == DestroyComplete || e == DomainStopped || e == CleanupComplete) ==> r == Step(s, [])
  {
    match (s, e)
    case (Running, FlowStarted) => Step(Running, [DestroyDomain])
    case (RunningStale, FlowStarted) => Step(Running, [DestroyDomain])
    case (_, FlowStarted) => Step(s, [CleanupArtifacts])
    case (_, DestroyComplete) => Step(Virgin, [CleanupArtifacts])
    case (_, DomainStopped) => Step(Virgin, [CleanupArtifacts])
    case (_, CleanupComplete) => Step(Virgin, [])
    case _ => Step(s, [])
  }
}
