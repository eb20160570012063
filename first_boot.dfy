// First boot: the full pipeline from a fresh or partially built VM to Running.

module FirstBoot {
  import opened VmStates
  import opened FlowEvents

  /** `FirstBootFlow::new`: every system script, then every boot script. */
  function New(systemScripts: seq<string>, bootScripts: seq<string>): (scripts: seq<string>)
    ensures |scripts| == |systemScripts| + |bootScripts|
    ensures scripts[..|systemScripts|] == systemScripts
    ensures scripts[|systemScripts|..] == bootScripts
  {
    systemScripts + bootScripts
  }

  const EntryStates: seq<VmState> := [Virgin, ImageCached, Prepared, PartialBoot]

  /** The (state, event) pairs that `FirstBootFlow::transition` has an arm for. */
  predicate Handled(s: VmState, e: Event)
  {
    match e
    case FlowStarted => s == Virgin || s == ImageCached || s == Prepared || s == PartialBoot
    case ImageReady(_) => s == ImageCached
    case VmPrepared => s == Prepared
    case DomainStarted => s == Prepared || s == PartialBoot
    case AgentConnected => s == PartialBoot
    case ScriptCompleted(_) => s == PartialBoot
    case ServicesStarted => s == Running
    case InitShutdown => s == Running
    case ShutdownComplete => true
    case ForceStop => true
    case _ => IsFailure(e)
  }

  /** `FirstBootFlow::transition`. The source matches on (state, event) with
      first-match arms; grouped here by event, which selects the same arm. */
  function Transition(scripts: seq<string>, s: VmState, e: Event): (r: Step)
    // every failure from any state goes back to Virgin with a cleanup
    ensures IsFailure(e) ==> r == Step(Virgin, [CleanupArtifacts])
    // a forced stop destroys the domain and then cleans up
    ensures e == ForceStop ==> r == Step(Virgin, [DestroyDomain, CleanupArtifacts])
    ensures e == ShutdownComplete ==> r == Step(Provisioned, [])
    // a shutdown request is only honoured once Running
    ensures e == InitShutdown ==> r == if s == Running then Step(Running, [ShutdownDomain]) else Step(s, [])
    // falling back to Virgin always schedules the cleanup
    ensures r.state == Virgin && s != Virgin ==> CleanupArtifacts in r.effects
    // only listed scripts are issued, one at a time, while the boot is partial
    ensures forall x | x in r.effects && x.RunScript? :: x.name in scripts && r.effects == [x] && r.state == PartialBoot
    ensures |r.effects| <= 2
    // the forward path of the pipeline, arm by arm
    ensures e == FlowStarted && (s == Virgin || s == ImageCached) ==> r == Step(ImageCached, [EnsureImage])
    ensures e == FlowStarted && (s == Prepared || s == PartialBoot) ==> r == Step(s, [BootVm])
    ensures e.ImageReady? && s == ImageCached ==> r == Step(Prepared, [PrepareVm])
    ensures e == VmPrepared && s == Prepared ==> r == Step(Prepared, [BootVm])
    ensures e == DomainStarted && (s == Prepared || s == PartialBoot) ==> r == Step(PartialBoot, [ConnectAgent])
    ensures e == AgentConnected && s == PartialBoot ==>
      r == if |scripts| == 0 then Step(Running, [StartServices]) else Step(PartialBoot, [RunScript(scripts[0])])
    // a completion issues the script after the first occurrence of its name ...
    ensures forall i | 0 <= i < |scripts| && s == PartialBoot && e == ScriptCompleted(scripts[i]) && scripts[i] !in scripts[..i] ::
      r == if i + 1 < |scripts| then Step(PartialBoot, [RunScript(scripts[i + 1])]) else Step(Running, [StartServices])
    // ... and a completion of the last script or of an unknown name starts the services
    ensures e.ScriptCompleted? && s == PartialBoot && e.name !in scripts ==> r == Step(Running, [StartServices])
    ensures e == ServicesStarted && s == Running ==> r == Step(Running, [])
    // every pair without an arm leaves the state unchanged with no effects
    ensures !Handled(s, e) ==> r == Step(s, [])
  {
    match e
    case FlowStarted =>
      (match s
       case Virgin => Step(ImageCached, [EnsureImage])
       case ImageCached => Step(ImageCached, [EnsureImage])
       case Prepared => Step(Prepared, [BootVm])
       case PartialBoot => Step(PartialBoot, [BootVm])
       case _ => Step(s, []))
    case ImageReady(_) => if s == ImageCached then Step(Prepared, [PrepareVm]) else Step(s, [])
    case VmPrepared => if s == Prepared then Step(Prepared, [BootVm]) else Step(s, [])
    case DomainStarted =>
      if s == Prepared || s == PartialBoot then Step(PartialBoot, [ConnectAgent]) else Step(s, [])
    case AgentConnected =>
      if s != PartialBoot then Step(s, [])
      else if |scripts| == 0 then Step(Running, [StartServices])
      else Step(PartialBoot, [RunScript(scripts[0])])
    case ScriptCompleted(name) =>
      if s != PartialBoot then Step(s, [])
      else
        (match NextScriptAfter(scripts, name)
         case Some(next) => Step(PartialBoot, [RunScript(next)])
         case None => Step(Running, [StartServices]))
    case ServicesStarted => if s == Running then Step(Running, []) else Step(s, [])
    case InitShutdown => if s == Running then Step(Running, [ShutdownDomain]) else Step(s, [])
    case ShutdownComplete => Step(Provisioned, [])
    case ForceStop => Step(Virgin, [DestroyDomain, CleanupArtifacts])
    case ImageFailed(_) => Step(Virgin, [CleanupArtifacts])
    case PrepareFailed(_) => Step(Virgin, [CleanupArtifacts])
    case BootFailed(_) => Step(Virgin, [CleanupArtifacts])
    case AgentTimedOut(_) => Step(Virgin, [CleanupArtifacts])
    case ScriptFailed(_, _) => Step(Virgin, [CleanupArtifacts])
    case _ => Step(s, [])
  }
}
