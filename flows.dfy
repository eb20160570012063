// Flow selection and the common interface of the six flows: the command a
// client issues picks one flow, and each flow maps (state, event) to a Step.

module Flows {
  import opened Wrappers
  import opened VmStates
  import opened FlowEvents
  import FirstBoot
  import Reboot
  import Reprovision
  import Destroy
  import Shutdown
  import Reattach

  /** Commands that drive flows. */
  datatype FlowCommand = Up | Down | DestroyCmd | Provision

  /** One value per flow type; the script-running flows carry their script list. */
  datatype Flow =
    | FirstBootFlow(scripts: seq<string>)
    | RebootFlow(bootScripts: seq<string>)
    | ReattachFlow
    | ShutdownFlow
    | DestroyFlow
    | ReprovisionFlow(scripts: seq<string>)

  /** `valid_entry_states` of each flow. */
  function EntryStates(f: Flow): seq<VmState>
  {
    match f
    case FirstBootFlow(_) => FirstBoot.EntryStates
    case RebootFlow(_) => Reboot.EntryStates
    case ReattachFlow => Reattach.EntryStates
    case ShutdownFlow => Shutdown.EntryStates
    case DestroyFlow => Destroy.EntryStates
    case ReprovisionFlow(_) => Reprovision.EntryStates
  }

  /** `Flow::transition`, dispatched on the flow type. */
  function Transition(f: Flow, s: VmState, e: Event): Step
  {
    match f
    case FirstBootFlow(scripts) => FirstBoot.Transition(scripts, s, e)
    case RebootFlow(boot) => Reboot.Transition(boot, s, e)
    case ReattachFlow => Reattach.Transition(s, e)
    case ShutdownFlow => Shutdown.Transition(s, e)
    case DestroyFlow => Destroy.Transition(s, e)
    case ReprovisionFlow(scripts) => Reprovision.Transition(scripts, s, e)
  }

  /** `valid.contains(state)`, a scan of the list. */
  function Contains(valid: seq<VmState>, s: VmState): (r: bool)
    ensures r <==> s in valid
  {
    if |valid| == 0 then false else valid[0] == s || Contains(valid[1..], s)
  }

  /** `flow_requires_state`: Ok exactly when the state is one of `valid`. */
  function FlowRequiresState(s: VmState, valid: seq<VmState>): (r: Result<()>)
    ensures r.Ok? <==> s in valid
    ensures r.Err? ==> r.error == Validation
  {
    if Contains(valid, s) then Ok(()) else Err(Validation)
  }

  /** `select_flow`: the flow a command runs from a given state. */
  function SelectFlow(cmd: FlowCommand, s: VmState, systemScripts: seq<string>, bootScripts: seq<string>): (r: Result<Flow>)
    // up: first boot with every script, reboot with the boot scripts only, or reattach
    ensures cmd == Up && s in FirstBoot.EntryStates ==> r == Ok(FirstBootFlow(systemScripts + bootScripts))
    ensures cmd == Up && s == Provisioned ==> r == Ok(RebootFlow(bootScripts))
    ensures cmd == Up && s == Running ==> r == Ok(ReattachFlow)
    ensures cmd == Up ==> (r.Err? <==> s == RunningStale)
    ensures cmd == Up && r.Err? ==> r.error == RequiresRestart("VM")
    // down only from a running VM
    ensures cmd == Down ==> r == if IsInteractiveWait(s) then Ok(ShutdownFlow) else Err(Validation)
    // destroy is selected from every state, Virgin included
    ensures cmd == DestroyCmd ==> r == Ok(DestroyFlow)
    // provision only from Running
    ensures cmd == Provision ==>
      r == if s == Running then Ok(ReprovisionFlow(systemScripts + bootScripts)) else Err(Validation)
  {
    match cmd
    case Up =>
      (match s
       case Virgin => Ok(FirstBootFlow(FirstBoot.New(systemScripts, bootScripts)))
       case ImageCached => Ok(FirstBootFlow(FirstBoot.New(systemScripts, bootScripts)))
       case Prepared => Ok(FirstBootFlow(FirstBoot.New(systemScripts, bootScripts)))
       case PartialBoot => Ok(FirstBootFlow(FirstBoot.New(systemScripts, bootScripts)))
       case Provisioned => Ok(RebootFlow(bootScripts))
       case Running => Ok(ReattachFlow)
       case RunningStale => Err(RequiresRestart("VM")))
    case Down =>
      (match FlowRequiresState(s, [Running, RunningStale])
       case Err(err) => Err(err)
       case Ok(_) => Ok(ShutdownFlow))
    case DestroyCmd => Ok(DestroyFlow)
    case Provision =>
      (match FlowRequiresState(s, [Running])
       case Err(err) => Err(err)
       case Ok(_) => Ok(ReprovisionFlow(FirstBoot.New(systemScripts, bootScripts))))
  }

  /** Every selected flow accepts the state it starts from, except that destroy
      is also selected from Virgin, which is not one of its entry states. */
  lemma SelectedFlowAcceptsState(cmd: FlowCommand, s: VmState, systemScripts: seq<string>, bootScripts: seq<string>)
    requires SelectFlow(cmd, s, systemScripts, bootScripts).Ok?
    ensures s in EntryStates(SelectFlow(cmd, s, systemScripts, bootScripts).value) <==> !(cmd == DestroyCmd && s == Virgin)
  {
  }

  /** The transition function of a flow, as a value. */
  function Stepper(f: Flow): (VmState, Event) -> Step
  {
    (s, e) => Transition(f, s, e)
  }

  /** The state and all effects after feeding `events` to a transition function one at a time. */
  function Replay(t: (VmState, Event) -> Step, s: VmState, events: seq<Event>): Step
    decreases |events|
  {
    if |events| == 0 then Step(s, [])
    else
      var first := t(s, events[0]);
      var rest := Replay(t, first.state, events[1..]);
      Step(rest.state, first.effects + rest.effects)
  }

  lemma {:induction false} ReplayAppend(t: (VmState, Event) -> Step, s: VmState, a: seq<Event>, b: seq<Event>)
    ensures Replay(t, s, a + b).state == Replay(t, Replay(t, s, a).state, b).state
    ensures Replay(t, s, a + b).effects == Replay(t, s, a).effects + Replay(t, Replay(t, s, a).state, b).effects
    decreases |a|
  {
    if |a| == 0 {
      assert a + b == b;
    } else {
      assert (a + b)[0] == a[0];
      assert (a + b)[1..] == a[1..] + b;
      ReplayAppend(t, t(s, a[0]).state, a[1..], b);
    }
  }

  /** Reaching Virgin from elsewhere happens only in first boot and destroy, and
      always schedules a cleanup unless it is the cleanup's own completion. */
  lemma OnlyDestructiveFlowsReachVirgin(f: Flow, s: VmState, e: Event)
    requires s != Virgin && Transition(f, s, e).state == Virgin
    ensures f.FirstBootFlow? || f.DestroyFlow?
    ensures CleanupArtifacts in Transition(f, s, e).effects || (f.DestroyFlow? && e == CleanupComplete)
  {
    match f
    case FirstBootFlow(scripts) =>
    case RebootFlow(boot) =>
      assert false;
    case ReattachFlow =>
      assert false;
    case ShutdownFlow =>
      assert false;
    case DestroyFlow =>
    case ReprovisionFlow(scripts) =>
      assert false;
  }

  /** Reboot, reattach, reprovision and shutdown never remove artifacts, and only
      shutdown (after a forced stop) may destroy the domain. */
  lemma NonDestructiveFlows(f: Flow, s: VmState, e: Event)
    requires !f.FirstBootFlow? && !f.DestroyFlow?
    ensures CleanupArtifacts !in Transition(f, s, e).effects
    ensures DestroyDomain in Transition(f, s, e).effects ==> f.ShutdownFlow? && e == ForceStop
  {
  }

  lemma ReplayCons(t: (VmState, Event) -> Step, s: VmState, e: Event, rest: seq<Event>)
    ensures Replay(t, s, [e] + rest) ==
      Step(Replay(t, t(s, e).state, rest).state, t(s, e).effects + Replay(t, t(s, e).state, rest).effects)
  {
    assert ([e] + rest)[0] == e && ([e] + rest)[1..] == rest;
  }

  /** A transition function that, in state `s`, answers the completion of each
      script with the next script and the completion of the last one with `done`. */
  predicate AdvancesThrough(t: (VmState, Event) -> Step, scripts: seq<string>, s: VmState, done: Step)
  {
    forall j | 0 <= j < |scripts| ::
      t(s, ScriptCompleted(scripts[j])) == if j + 1 < |scripts| then Step(s, [RunScript(scripts[j + 1])]) else done
  }

  lemma AdvanceAt(t: (VmState, Event) -> Step, scripts: seq<string>, s: VmState, done: Step, j: nat)
    requires AdvancesThrough(t, scripts, s, done) && j < |scripts|
    ensures t(s, ScriptCompleted(scripts[j])) == if j + 1 < |scripts| then Step(s, [RunScript(scripts[j + 1])]) else done
  {
  }

  lemma FirstBootAdvances(scripts: seq<string>)
    requires Distinct(scripts)
    ensures AdvancesThrough(Stepper(FirstBootFlow(scripts)), scripts, PartialBoot, Step(Running, [StartServices]))
  {
    forall j | 0 <= j < |scripts|
      ensures Stepper(FirstBootFlow(scripts))(PartialBoot, ScriptCompleted(scripts[j])) ==
        if j + 1 < |scripts| then Step(PartialBoot, [RunScript(scripts[j + 1])]) else Step(Running, [StartServices])
    {
      NextOfDistinct(scripts, j);
      assert Stepper(FirstBootFlow(scripts))(PartialBoot, ScriptCompleted(scripts[j])) == FirstBoot.Transition(scripts, PartialBoot, ScriptCompleted(scripts[j]));
    }
  }

  lemma RebootAdvances(scripts: seq<string>)
    requires Distinct(scripts)
    ensures AdvancesThrough(Stepper(RebootFlow(scripts)), scripts, PartialBoot, Step(Running, [StartServices]))
  {
    forall j | 0 <= j < |scripts|
      ensures Stepper(RebootFlow(scripts))(PartialBoot, ScriptCompleted(scripts[j])) ==
        if j + 1 < |scripts| then Step(PartialBoot, [RunScript(scripts[j + 1])]) else Step(Running, [StartServices])
    {
      NextOfDistinct(scripts, j);
      assert Stepper(RebootFlow(scripts))(PartialBoot, ScriptCompleted(scripts[j])) == Reboot.Transition(scripts, PartialBoot, ScriptCompleted(scripts[j]));
    }
  }

  lemma ReprovisionAdvances(scripts: seq<string>)
    requires Distinct(scripts)
    ensures AdvancesThrough(Stepper(ReprovisionFlow(scripts)), scripts, Running, Step(Running, []))
  {
    forall j | 0 <= j < |scripts|
      ensures Stepper(ReprovisionFlow(scripts))(Running, ScriptCompleted(scripts[j])) ==
        if j + 1 < |scripts| then Step(Running, [RunScript(scripts[j + 1])]) else Step(Running, [])
    {
      NextOfDistinct(scripts, j);
      assert Stepper(ReprovisionFlow(scripts))(Running, ScriptCompleted(scripts[j])) == Reprovision.Transition(scripts, Running, ScriptCompleted(scripts[j]));
    }
  }

  /** From the completion of the k-th script on, the remaining scripts are issued in order, then `done`. */
  lemma {:induction false} SequencingFrom(t: (VmState, Event) -> Step, scripts: seq<string>, s: VmState, done: Step, k: nat)
    requires AdvancesThrough(t, scripts, s, done) && k < |scripts|
    ensures Replay(t, s, Completions(scripts[k..])) == Step(done.state, RunScripts(scripts[k + 1..]) + done.effects)
    decreases |scripts| - k
  {
    var evs := Completions(scripts[k..]);
    assert evs == [ScriptCompleted(scripts[k])] + evs[1..];
    ReplayCons(t, s, ScriptCompleted(scripts[k]), evs[1..]);
    AdvanceAt(t, scripts, s, done, k);
    if k + 1 < |scripts| {
      assert evs[1..] == Completions(scripts[k + 1..]);
      SequencingFrom(t, scripts, s, done, k + 1);
      assert RunScripts(scripts[k + 1..]) == [RunScript(scripts[k + 1])] + RunScripts(scripts[k + 2..]);
    } else {
      assert evs[1..] == [];
      assert RunScripts(scripts[k + 1..]) == [];
    }
  }

  /** After the first k+1 completions, scripts[1..k+2] were issued and the state is still `s`. */
  lemma {:induction false} SequencingPrefix(t: (VmState, Event) -> Step, scripts: seq<string>, s: VmState, done: Step, k: nat)
    requires AdvancesThrough(t, scripts, s, done) && k + 1 < |scripts|
    ensures Replay(t, s, Completions(scripts[..k + 1])) == Step(s, RunScripts(scripts[1..k + 2]))
  {
    var c := Completions(scripts[..k + 1]);
    assert c == Completions(scripts[..k]) + [ScriptCompleted(scripts[k])];
    ReplayAppend(t, s, Completions(scripts[..k]), [ScriptCompleted(scripts[k])]);
    ReplayCons(t, s, ScriptCompleted(scripts[k]), []);
    AdvanceAt(t, scripts, s, done, k);
    assert RunScripts(scripts[1..k + 2]) == RunScripts(scripts[1..k + 1]) + [RunScript(scripts[k + 1])];
    if k > 0 {
      SequencingPrefix(t, scripts, s, done, k - 1);
    } else {
      assert Completions(scripts[..0]) == [];
    }
  }

  /** A start event that issues the first script, followed by one completion per
      script, issues every script in order and then ends as `done` says. */
  lemma StartThenSequence(t: (VmState, Event) -> Step, s0: VmState, start: Event, scripts: seq<string>, s: VmState, done: Step)
    requires AdvancesThrough(t, scripts, s, done)
    requires t(s0, start) == if |scripts| == 0 then done else Step(s, [RunScript(scripts[0])])
    ensures Replay(t, s0, [start] + Completions(scripts)) == Step(done.state, RunScripts(scripts) + done.effects)
  {
    if |scripts| > 0 {
      SequencingFrom(t, scripts, s, done, 0);
      assert scripts[0..] == scripts;
      StartThenRest(t, s0, start, scripts, s, done);
    } else {
      assert Completions(scripts) == [] && RunScripts(scripts) == [];
      ReplayStep(t, s0, start, [], Step(done.state, []));
    }
  }

  lemma StartThenRest(t: (VmState, Event) -> Step, s0: VmState, start: Event, scripts: seq<string>, s: VmState, done: Step)
    requires |scripts| > 0 && t(s0, start) == Step(s, [RunScript(scripts[0])])
    requires Replay(t, s, Completions(scripts)) == Step(done.state, RunScripts(scripts[1..]) + done.effects)
    ensures Replay(t, s0, [start] + Completions(scripts)) == Step(done.state, RunScripts(scripts) + done.effects)
  {
    ReplayStep(t, s0, start, Completions(scripts), Step(done.state, RunScripts(scripts[1..]) + done.effects));
    assert RunScripts(scripts) == [RunScript(scripts[0])] + RunScripts(scripts[1..]);
  }

  /** Replaying `start` then `rest` composes the step `start` takes with the replay of `rest`. */
  lemma ReplayStep(t: (VmState, Event) -> Step, s0: VmState, start: Event, rest: seq<Event>, tail: Step)
    requires Replay(t, t(s0, start).state, rest) == tail
    ensures Replay(t, s0, [start] + rest) == Step(tail.state, t(s0, start).effects + tail.effects)
  {
    ReplayCons(t, s0, start, rest);
  }

  /** Once the agent is connected, every script is issued exactly once, in list
      order, each after the previous one completed; then the VM is Running. */
  lemma ScriptsIssuedInOrder(f: Flow, scripts: seq<string>)
    requires f == FirstBootFlow(scripts) || f == RebootFlow(scripts)
    requires Distinct(scripts)
    ensures Replay(Stepper(f), PartialBoot, [AgentConnected] + Completions(scripts)) == Step(Running, RunScripts(scripts) + [StartServices])
  {
    var done := Step(Running, [StartServices]);
    if f.FirstBootFlow? {
      FirstBootAdvances(scripts);
      assert Stepper(f)(PartialBoot, AgentConnected) == FirstBoot.Transition(scripts, PartialBoot, AgentConnected);
    } else {
      RebootAdvances(scripts);
      assert Stepper(f)(PartialBoot, AgentConnected) == Reboot.Transition(scripts, PartialBoot, AgentConnected);
    }
    StartThenSequence(Stepper(f), PartialBoot, AgentConnected, scripts, PartialBoot, done);
  }

  /** The whole first boot from Virgin: image, preparation, boot, agent, every
      script in order, then services. */
  lemma FirstBootHappyPath(systemScripts: seq<string>, bootScripts: seq<string>, image: string)
    requires Distinct(systemScripts + bootScripts)
    ensures var scripts := systemScripts + bootScripts;
      Replay(Stepper(FirstBootFlow(scripts)), Virgin,
             [FlowStarted, ImageReady(image), VmPrepared, DomainStarted] + ([AgentConnected] + Completions(scripts)) + [ServicesStarted])
      == Step(Running, [EnsureImage, PrepareVm, BootVm, ConnectAgent] + (RunScripts(scripts) + [StartServices]))
  {
    var scripts := systemScripts + bootScripts;
    var t := Stepper(FirstBootFlow(scripts));
    var boot := [FlowStarted, ImageReady(image), VmPrepared, DomainStarted];
    var middle := [AgentConnected] + Completions(scripts);
    ReplayAppend(t, Virgin, boot + middle, [ServicesStarted]);
    ReplayAppend(t, Virgin, boot, middle);
    FirstBootPrelude(scripts, image);
    ScriptsIssuedInOrder(FirstBootFlow(scripts), scripts);
    assert t(Running, ServicesStarted) == FirstBoot.Transition(scripts, Running, ServicesStarted);
    ReplayCons(t, Running, ServicesStarted, []);
    assert [ServicesStarted] == [ServicesStarted] + [];
  }

  /** Image, preparation and boot bring a Virgin VM to PartialBoot waiting for the agent. */
  lemma FirstBootPrelude(scripts: seq<string>, image: string)
    ensures Replay(Stepper(FirstBootFlow(scripts)), Virgin, [FlowStarted, ImageReady(image), VmPrepared, DomainStarted])
      == Step(PartialBoot, [EnsureImage, PrepareVm, BootVm, ConnectAgent])
  {
    var t := Stepper(FirstBootFlow(scripts));
    assert t(Virgin, FlowStarted) == FirstBoot.Transition(scripts, Virgin, FlowStarted);
    assert t(ImageCached, ImageReady(image)) == FirstBoot.Transition(scripts, ImageCached, ImageReady(image));
    assert t(Prepared, VmPrepared) == FirstBoot.Transition(scripts, Prepared, VmPrepared);
    assert t(Prepared, DomainStarted) == FirstBoot.Transition(scripts, Prepared, DomainStarted);
    ReplayCons(t, Prepared, DomainStarted, []);
    assert [DomainStarted] == [DomainStarted] + [];
    ReplayCons(t, Prepared, VmPrepared, [DomainStarted]);
    assert [VmPrepared, DomainStarted] == [VmPrepared] + [DomainStarted];
    ReplayCons(t, ImageCached, ImageReady(image), [VmPrepared, DomainStarted]);
    assert [ImageReady(image), VmPrepared, DomainStarted] == [ImageReady(image)] + [VmPrepared, DomainStarted];
    ReplayCons(t, Virgin, FlowStarted, [ImageReady(image), VmPrepared, DomainStarted]);
    assert [FlowStarted, ImageReady(image), VmPrepared, DomainStarted] == [FlowStarted] + [ImageReady(image), VmPrepared, DomainStarted];
  }

  /** Reprovisioning issues every script in order, one per completion, and stays Running. */
  lemma ReprovisionRunsAll(scripts: seq<string>)
    requires Distinct(scripts)
    ensures Replay(Stepper(ReprovisionFlow(scripts)), Running, [FlowStarted] + Completions(scripts)) == Step(Running, RunScripts(scripts))
  {
    var t := Stepper(ReprovisionFlow(scripts));
    ReprovisionAdvances(scripts);
    assert t(Running, FlowStarted) == Reprovision.Transition(scripts, Running, FlowStarted);
    StartThenSequence(t, Running, FlowStarted, scripts, Running, Step(Running, []));
    assert RunScripts(scripts) + [] == RunScripts(scripts);
  }

  /** A failing script ends reprovisioning: the scripts up to and including the
      failed one were issued, no later one is, and the VM stays Running. */
  lemma ReprovisionStopsAtFailure(scripts: seq<string>, k: nat, error: string)
    requires Distinct(scripts) && k < |scripts|
    ensures Replay(Stepper(ReprovisionFlow(scripts)), Running, [FlowStarted] + Completions(scripts[..k]) + [ScriptFailed(scripts[k], error)])
      == Step(Running, RunScripts(scripts[..k + 1]))
  {
    var t := Stepper(ReprovisionFlow(scripts));
    ReprovisionAdvances(scripts);
    var pre := [FlowStarted] + Completions(scripts[..k]);
    ReplayAppend(t, Running, pre, [ScriptFailed(scripts[k], error)]);
    ReplayCons(t, Running, FlowStarted, Completions(scripts[..k]));
    ReplayCons(t, Running, ScriptFailed(scripts[k], error), []);
    assert t(Running, FlowStarted) == Step(Running, [RunScript(scripts[0])]);
    assert RunScripts(scripts[..k + 1]) == [RunScript(scripts[0])] + RunScripts(scripts[1..k + 1]);
    if k > 0 {
      SequencingPrefix(t, scripts, Running, Step(Running, []), k - 1);
    } else {
      assert Completions(scripts[..0]) == [];
    }
  }

  /** With a duplicated name the sequence never ends: each completion of `a`
      issues `a` again and the boot stays partial. */
  lemma {:induction false} DuplicateNameRepeats(a: string, n: nat)
    ensures Replay(Stepper(FirstBootFlow([a, a])), PartialBoot, seq(n, _ => ScriptCompleted(a)))
      == Step(PartialBoot, seq(n, _ => RunScript(a)))
  {
    if n > 0 {
      var evs := seq(n, _ => ScriptCompleted(a));
      assert evs[1..] == seq(n - 1, _ => ScriptCompleted(a));
      DuplicateNameRepeats(a, n - 1);
      assert NextScriptAfter([a, a], a) == Some(a);
      assert seq(n, _ => RunScript(a)) == [RunScript(a)] + seq(n - 1, _ => RunScript(a));
    }
  }

  /** The happy path of destroy emits exactly `expected_steps` effects and ends in Virgin. */
  lemma DestroyExpectedSteps(s: VmState)
    requires s in Destroy.EntryStates
    ensures IsInteractiveWait(s) ==>
      Replay(Stepper(DestroyFlow), s, [FlowStarted, DomainStopped, CleanupComplete]) == Step(Virgin, [DestroyDomain, CleanupArtifacts])
    ensures !IsInteractiveWait(s) ==>
      Replay(Stepper(DestroyFlow), s, [FlowStarted, CleanupComplete]) == Step(Virgin, [CleanupArtifacts])
    ensures var events := if IsInteractiveWait(s) then [FlowStarted, DomainStopped, CleanupComplete] else [FlowStarted, CleanupComplete];
      Destroy.ExpectedSteps(s) == |Replay(Stepper(DestroyFlow), s, events).effects|
  {
    if IsInteractiveWait(s) {
      DestroyFromWait(s);
    } else {
      DestroyFromRest(s);
    }
  }

  lemma DestroyFromWait(s: VmState)
    requires IsInteractiveWait(s)
    ensures Replay(Stepper(DestroyFlow), s, [FlowStarted, DomainStopped, CleanupComplete]) == Step(Virgin, [DestroyDomain, CleanupArtifacts])
  {
    var t := Stepper(DestroyFlow);
    assert t(s, FlowStarted) == Step(Running, [DestroyDomain]);
    assert t(Running, DomainStopped) == Step(Virgin, [CleanupArtifacts]);
    assert t(Virgin, CleanupComplete) == Step(Virgin, []);
    ReplayThree(t, s, FlowStarted, DomainStopped, CleanupComplete, Running, Virgin, Virgin, [DestroyDomain], [CleanupArtifacts], []);
    assert [DestroyDomain] + ([CleanupArtifacts] + []) == [DestroyDomain, CleanupArtifacts];
  }

  lemma DestroyFromRest(s: VmState)
    requires !IsInteractiveWait(s)
    ensures Replay(Stepper(DestroyFlow), s, [FlowStarted, CleanupComplete]) == Step(Virgin, [CleanupArtifacts])
  {
    var t := Stepper(DestroyFlow);
    assert t(s, FlowStarted) == Step(s, [CleanupArtifacts]);
    assert t(s, CleanupComplete) == Step(Virgin, []);
    ReplayTwo(t, s, FlowStarted, CleanupComplete, s, Virgin, [CleanupArtifacts], []);
    assert [CleanupArtifacts] + [] == [CleanupArtifacts];
  }

  lemma ReplayTwo(t: (VmState, Event) -> Step, s: VmState, e1: Event, e2: Event, s1: VmState, s2: VmState,
                  x1: seq<Effect>, x2: seq<Effect>)
    requires t(s, e1) == Step(s1, x1) && t(s1, e2) == Step(s2, x2)
    ensures Replay(t, s, [e1, e2]) == Step(s2, x1 + x2)
  {
    ReplayCons(t, s1, e2, []);
    assert [e2] + [] == [e2];
    ReplayCons(t, s, e1, [e2]);
    assert [e1] + [e2] == [e1, e2];
    assert x2 + [] == x2;
  }

  lemma ReplayThree(t: (VmState, Event) -> Step, s: VmState, e1: Event, e2: Event, e3: Event,
                    s1: VmState, s2: VmState, s3: VmState, x1: seq<Effect>, x2: seq<Effect>, x3: seq<Effect>)
    requires t(s, e1) == Step(s1, x1) && t(s1, e2) == Step(s2, x2) && t(s2, e3) == Step(s3, x3)
    ensures Replay(t, s, [e1, e2, e3]) == Step(s3, x1 + (x2 + x3))
  {
    ReplayTwo(t, s1, e2, e3, s2, s3, x2, x3);
    ReplayCons(t, s, e1, [e2, e3]);
    assert [e1] + [e2, e3] == [e1, e2, e3];
  }

  /** The happy path of shutdown emits exactly `expected_steps` effects and ends Provisioned. */
  lemma ShutdownExpectedSteps(s: VmState)
    requires s in Shutdown.EntryStates
    ensures Replay(Stepper(ShutdownFlow), s, [FlowStarted, ShutdownComplete]) == Step(Provisioned, [ShutdownDomain])
    ensures Shutdown.ExpectedSteps(s) == |Replay(Stepper(ShutdownFlow), s, [FlowStarted, ShutdownComplete]).effects|
  {
  }

  /** Reattaching starts services once, matching `expected_steps`. */
  lemma ReattachExpectedSteps()
    ensures Replay(Stepper(ReattachFlow), Running, [FlowStarted, ServicesStarted]) == Step(Running, [StartServices])
    ensures Reattach.ExpectedSteps(Running) == |Replay(Stepper(ReattachFlow), Running, [FlowStarted, ServicesStarted]).effects|
  {
  }

  /** Reprovisioning emits one effect per script, matching `expected_steps`. */
  lemma ReprovisionExpectedSteps(scripts: seq<string>)
    requires Distinct(scripts)
    ensures |Replay(Stepper(ReprovisionFlow(scripts)), Running, [FlowStarted] + Completions(scripts)).effects| == Reprovision.ExpectedSteps(scripts)
  {
    ReprovisionRunsAll(scripts);
  }
}
