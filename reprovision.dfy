// Reprovision: run the provisioning scripts again on a running VM.

module Reprovision {
  import opened VmStates
  import opened FlowEvents

  // `ReprovisionFlow::new` builds its script list exactly as `FirstBootFlow::new`
  // does, so the dispatcher uses `FirstBoot.New` for both flows.

  const EntryStates: seq<VmState> := [Running]

  /** `expected_steps`: one step per script. */
  function ExpectedSteps(scripts: seq<string>): nat
  {
    |scripts|
  }

  /** `ReprovisionFlow::transition`: every arm requires the VM to be Running. */
  function Transition(scripts: seq<string>, s: VmState, e: Event): (r: Step)
    // the VM keeps running; only a completed shutdown leaves Running
    ensures s == Running && e != ShutdownComplete ==> r.state == Running
    ensures s == Running && e == ShutdownComplete ==> r == Step(Provisioned, [])
    ensures s != Running ==> r == Step(s, [])
    // the first script starts the sequence; each completion issues the one after it
    ensures s == Running && e == FlowStarted ==>
      r == Step(Running, if |scripts| == 0 then [] else [RunScript(scripts[0])])
    ensures s == Running && e.ScriptCompleted? ==>
      r == Step(Running, match NextScriptAfter(scripts, e.name) case Some(n) => [RunScript(n)] case None => [])
    ensures s == Running && e == InitShutdown ==> r == Step(Running, [ShutdownDomain])
    // in Running, every other event leaves the state unchanged with no effects
    ensures s == Running && !(e == FlowStarted || e.ScriptCompleted? || e.ScriptFailed? || e == InitShutdown || e == ShutdownComplete) ==>
      r == Step(Running, [])
    // a failed script stops the sequence: nothing further is issued
    ensures e.ScriptFailed? ==> r.effects == []
    ensures DestroyDomain !in r.effects && CleanupArtifacts !in r.effects
    ensures forall x | x in r.effects && x.RunScript? :: x.name in scripts && r.effects == [x]
  {
    if s != Running then Step(s, [])
    else
      match e
      case FlowStarted =>
        if |scripts| == 0 then Step(Running, []) else Step(Running, [RunScript(scripts[0])])
      case ScriptCompleted(name) =>
        (match NextScriptAfter(scripts, name)
         case Some(next) => Step(Running, [RunScript(next)])
         case None => Step(Running, []))
      case ScriptFailed(_, _) => Step(Running, [])
      case InitShutdown => Step(Running, [ShutdownDomain])
      case ShutdownComplete => Step(Provisioned, [])
      case _ => Step(s, [])
  }
}
