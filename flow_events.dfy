// The closed vocabulary shared by every flow: events, effects, the result of
// one transition, and the script-sequencing helper the script-running flows use.

module FlowEvents {
  import opened Wrappers
  import opened VmStates

  /** Events emitted by workers or received from clients. */
  datatype Event =
    | FlowStarted
    | ImageReady(path: string)
    | ImageFailed(message: string)
    | VmPrepared
    | PrepareFailed(message: string)
    | DomainStarted
    | BootFailed(message: string)
    | AgentConnected
    | AgentTimedOut(message: string)   // `Event::AgentTimeout`
    | ScriptStarted(name: string)
    | ScriptCompleted(name: string)
    | ScriptFailed(name: string, error: string)
    | AllScriptsComplete
    | ServicesStarted
    | InitShutdown
    | ForceStop
    | ShutdownComplete
    | DomainStopped
    | CleanupComplete
    | DestroyComplete
    | Detach

  /** Effects dispatched to workers by the event loop. */
  datatype Effect =
    | EnsureImage
    | PrepareVm
    | BootVm
    | ConnectAgent
    | RunScript(name: string)
    | StartServices
    | ShutdownDomain
    | DestroyDomain
    | CleanupArtifacts

  /** The value of one `transition` call: the new state and the effects to dispatch. */
  datatype Step = Step(state: VmState, effects: seq<Effect>)

  /** The worker failure events that first boot answers with a cleanup. */
  predicate IsFailure(e: Event)
  {
    e.ImageFailed? || e.PrepareFailed? || e.BootFailed? || e.AgentTimedOut? || e.ScriptFailed?
  }

  /** `iter().position(|s| s == name)`: the index of the first occurrence. */
  function Position(scripts: seq<string>, name: string): (r: Option<nat>)
    ensures r.None? <==> name !in scripts
    ensures r.Some? ==> r.value < |scripts| && scripts[r.value] == name && name !in scripts[..r.value]
  {
    if |scripts| == 0 then None
    else if scripts[0] == name then Some(0)
    else
      match Position(scripts[1..], name)
      case None => None
      case Some(i) =>
        assert scripts[1..][..i] == scripts[1..i + 1];
        Some(i + 1)
  }

  /** `next_script_after`: the script after the first occurrence of `name`. */
  function NextScriptAfter(scripts: seq<string>, name: string): (r: Option<string>)
    ensures name !in scripts ==> r == None
    ensures forall i | 0 <= i < |scripts| && scripts[i] == name && name !in scripts[..i] ::
      r == if i + 1 < |scripts| then Some(scripts[i + 1]) else None
  {
    match Position(scripts, name)
    case None => None
    case Some(i) => if i + 1 < |scripts| then Some(scripts[i + 1]) else None
  }

  /** No name occurs twice. */
  predicate Distinct(scripts: seq<string>)
  {
    forall i, j | 0 <= i < j < |scripts| :: scripts[i] != scripts[j]
  }

  /** With distinct names, the script after the i-th one is the (i+1)-th one. */
  lemma NextOfDistinct(scripts: seq<string>, i: nat)
    requires Distinct(scripts) && i < |scripts|
    ensures NextScriptAfter(scripts, scripts[i]) ==
      if i + 1 < |scripts| then Some(scripts[i + 1]) else None
  {
    assert scripts[i] !in scripts[..i] by {
      forall j | 0 <= j < i ensures scripts[..i][j] != scripts[i] { }
    }
  }

  /** The effect list that issues every script of `scripts`, in order. */
  function RunScripts(scripts: seq<string>): (r: seq<Effect>)
    ensures |r| == |scripts|
    ensures forall i | 0 <= i < |scripts| :: r[i] == RunScript(scripts[i])
  {
    if |scripts| == 0 then [] else [RunScript(scripts[0])] + RunScripts(scripts[1..])
  }

  /** The completion events the scripts report, one per script, in order. */
  function Completions(scripts: seq<string>): (r: seq<Event>)
    ensures |r| == |scripts|
    ensures forall i | 0 <= i < |scripts| :: r[i] == ScriptCompleted(scripts[i])
  {
    if |scripts| == 0 then [] else [ScriptCompleted(scripts[0])] + Completions(scripts[1..])
  }
}
