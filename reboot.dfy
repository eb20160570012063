// Reboot: boot a VM that was provisioned before and stopped with `down`.

module Reboot {
  import opened VmStates
  import opened FlowEvents

  const EntryStates: seq<VmState> := [Provisioned]

  /** The (state, event) pairs that `RebootFlow::transition` has an arm for. */
  predicate Handled(s: VmState, e: Event)
  {
    match e
    case FlowStarted => s == Provisioned
    case DomainStarted => s == Provisioned
    case AgentConnected => s == PartialBoot
    case ScriptCompleted(_) => s == PartialBoot
    case ServicesStarted => s == Running
    case InitShutdown => true
    case ShutdownComplete => true
    case ForceStop => true
    case _ => false
  }

  /** `RebootFlow::transition` over the boot scripts only; the (state, event)
      arms are grouped by event, which selects the same arm. */
  function Transition(bootScripts: seq<string>, s: VmState, e: Event): (r: Step)
    // a reboot never destroys the domain and never removes artifacts
    ensures DestroyDomain !in r.effects && CleanupArtifacts !in r.effects
    ensures s != Virgin ==> r.state != Virgin
    // a forced stop is answered with a graceful shutdown
    ensures e == ForceStop ==> r == Step(Provisioned, [ShutdownDomain])
    ensures e == InitShutdown ==> r == Step(Running, [ShutdownDomain])
    ensures e == ShutdownComplete ==> r == Step(Provisioned, [])
    ensures forall x | x in r.effects && x.RunScript? :: x.name in bootScripts && r.effects == [x] && r.state == PartialBoot
    // the boot path, arm by arm
    ensures e == FlowStarted && s == Provisioned ==> r == Step(Provisioned, [BootVm])
    ensures e == DomainStarted && s == Provisioned ==> r == Step(PartialBoot, [ConnectAgent])
    ensures e == AgentConnected && s == PartialBoot ==>
      r == if |bootScripts| == 0 then Step(Running, [StartServices]) else Step(PartialBoot, [RunScript(bootScripts[0])])
    // a completion issues the script after the first occurrence of its name ...
    ensures forall i | 0 <= i < |bootScripts| && s == PartialBoot && e == ScriptCompleted(bootScripts[i]) && bootScripts[i] !in bootScripts[..i] ::
      r == if i + 1 < |bootScripts| then Step(PartialBoot, [RunScript(bootScripts[i + 1])]) else Step(Running, [StartServices])
    // ... and a completion of the last script or of an unknown name starts the services
    ensures e.ScriptCompleted? && s == PartialBoot && e.name !in bootScripts ==> r == Step(Running, [StartServices])
    ensures e == ServicesStarted && s == Running ==> r == Step(Running, [])
    // every pair without an arm leaves the state unchanged with no effects
    ensures !Handled(s, e) ==> r == Step(s, [])
  {
    match e
    case FlowStarted => if s == Provisioned then Step(Provisioned, [BootVm]) else Step(s, [])
    case DomainStarted => if s == Provisioned then Step(PartialBoot, [ConnectAgent]) else Step(s, [])
    case AgentConnected =>
      if s != PartialBoot then Step(s, [])
      else if |bootScripts| == 0 then Step(Running, [StartServices])
      else Step(PartialBoot, [RunScript(bootScripts[0])])
    case ScriptCompleted(name) =>
      if s != PartialBoot then Step(s, [])
      else
        (match NextScriptAfter(bootScripts, name)
         case Some(next) => Step(PartialBoot, [RunScript(next)])
         case None => Step(Running, [StartServices]))
    case ServicesStarted => if s == Running then Step(Running, []) else Step(s, [])
    case InitShutdown => Step(Running, [ShutdownDomain])
    case ShutdownComplete => Step(Provisioned, [])
    case ForceStop => Step(Provisioned, [ShutdownDomain])
    case _ => Step(s, [])
  }
}
