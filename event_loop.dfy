// The server event loop that drives a flow, run sequentially: an arrival
// oracle stands for the client command channel and the completion order of the
// concurrently running workers.

module EventLoop {
  import opened Wrappers
  import opened VmStates
  import opened FlowEvents
  import opened AgentProtocol
  import Flows

  /** The parts of the system configuration that `build_provision_script` reads.
      `resolvedFs` is None when resolving the drives or the filesystems fails;
      `driveScript` is the text `build_drive_script` produces for them. */
  datatype ScriptConfig = ScriptConfig(
    resolvedFs: Option<nat>,
    driveScript: string,
    systemScript: Option<string>,
    bootScript: Option<string>)

  /** `build_provision_script`: the single script a RunScript effect names. */
  function BuildProvisionScript(cfg: ScriptConfig, name: string): (r: Option<ProvisionScript>)
    ensures r.Some? ==> r.value.name == name
    ensures name == "rum-drives" ==>
      (r.Some? <==> cfg.resolvedFs.Some? && cfg.resolvedFs.value > 0) &&
      (r.Some? ==> r.value.order == 0 && r.value.runOn == System && r.value.content == cfg.driveScript)
    ensures name == "rum-system" ==>
      (r.Some? <==> cfg.systemScript.Some?) &&
      (r.Some? ==> r.value.order == 1 && r.value.runOn == System && r.value.content == cfg.systemScript.value)
    ensures name == "rum-boot" ==>
      (r.Some? <==> cfg.bootScript.Some?) &&
      (r.Some? ==> r.value.order == 2 && r.value.runOn == Boot && r.value.content == cfg.bootScript.value)
    ensures name !in {"rum-drives", "rum-system", "rum-boot"} ==> r == None
  {
    if name == "rum-drives" then
      if cfg.resolvedFs.None? || cfg.resolvedFs.value == 0 then None
      else Some(ProvisionScript("rum-drives", "Setting up drives and filesystems", cfg.driveScript, 0, System))
    else if name == "rum-system" then
      if cfg.systemScript.None? then None
      else Some(ProvisionScript("rum-system", "Running system provisioning", cfg.systemScript.value, 1, System))
    else if name == "rum-boot" then
      if cfg.bootScript.None? then None
      else Some(ProvisionScript("rum-boot", "Running boot provisioning", cfg.bootScript.value, 2, Boot))
    else None
  }

  /** The drive script sorts before the system script, which sorts before the
      boot script, so the guest's sort by `order` keeps the flows' order. */
  lemma ScriptOrdersFollowFlowOrder(cfg: ScriptConfig)
    ensures BuildProvisionScript(cfg, "rum-drives").Some? && BuildProvisionScript(cfg, "rum-system").Some? ==>
      BuildProvisionScript(cfg, "rum-drives").value.order < BuildProvisionScript(cfg, "rum-system").value.order
    ensures BuildProvisionScript(cfg, "rum-system").Some? && BuildProvisionScript(cfg, "rum-boot").Some? ==>
      BuildProvisionScript(cfg, "rum-system").value.order < BuildProvisionScript(cfg, "rum-boot").value.order
    ensures BuildProvisionScript(cfg, "rum-drives").Some? && BuildProvisionScript(cfg, "rum-boot").Some? ==>
      BuildProvisionScript(cfg, "rum-drives").value.order < BuildProvisionScript(cfg, "rum-boot").value.order
  {
  }

  /** `AccumulatedState`: what earlier workers left for later ones. */
  datatype Acc = Acc(baseImage: Option<string>, vsockCid: Option<nat>, agentConnected: bool)

  /** What the external call behind a worker returned: success or failure, the
      image path or vsock CID on success, the error text on failure, and for a
      script the exit code of the `Done` event if one arrived. */
  datatype CallOutcome = CallOutcome(ok: bool, path: string, cid: nat, message: string, doneCode: Option<int>)

  /** The events a worker for `effect` can report. */
  predicate Answers(effect: Effect, e: Event)
  {
    match effect
    case EnsureImage => e.ImageReady? || e.ImageFailed?
    case PrepareVm => e == VmPrepared || e.PrepareFailed?
    case BootVm => e == DomainStarted || e.BootFailed?
    case ConnectAgent => e == AgentConnected || e.AgentTimedOut?
    case RunScript(name) => (e.ScriptCompleted? && e.name == name) || (e.ScriptFailed? && e.name == name)
    case StartServices => e == ServicesStarted
    case ShutdownDomain => e == ShutdownComplete
    case DestroyDomain => e == DomainStopped
    case CleanupArtifacts => e == CleanupComplete
  }

  /** The event each `make_worker` branch reports, and the accumulated state it leaves. */
  function WorkerReport(effect: Effect, acc: Acc, cfg: ScriptConfig, out: CallOutcome): (r: (Event, Acc))
    ensures Answers(effect, r.0)
    // a script fails on a non-zero exit code even when the RPC itself succeeded
    ensures (effect.RunScript? && acc.agentConnected && BuildProvisionScript(cfg, effect.name).Some?
             && out.doneCode.Some? && out.doneCode.value != 0) ==> r.0.ScriptFailed?
    // a script completes only when the agent ran a known script, no Done code was
    // non-zero, and the spawned worker and the RPC call succeeded
    ensures effect.RunScript? ==>
      (r.0.ScriptCompleted? <==> acc.agentConnected && BuildProvisionScript(cfg, effect.name).Some?
                                 && (out.doneCode.None? || out.doneCode.value == 0) && out.ok)
    // the image, boot and agent steps depend on what earlier steps stored
    ensures effect == PrepareVm && acc.baseImage.None? ==> r.0.PrepareFailed?
    ensures effect == ConnectAgent && acc.vsockCid.None? ==> r.0.AgentTimedOut?
    ensures effect == EnsureImage && out.ok ==> r.1.baseImage == Some(out.path)
    ensures effect == BootVm && out.ok ==> r.1.vsockCid == Some(out.cid)
    ensures r.1.agentConnected == (acc.agentConnected || r.0 == AgentConnected)
  {
    match effect
    case EnsureImage =>
      if out.ok then (ImageReady(out.path), acc.(baseImage := Some(out.path)))
      else (ImageFailed(out.message), acc)
    case PrepareVm =>
      if acc.baseImage.None? then (PrepareFailed("base image path not available"), acc)
      else if out.ok then (VmPrepared, acc)
      else (PrepareFailed(out.message), acc)
    case BootVm =>
      if out.ok then (DomainStarted, acc.(vsockCid := Some(out.cid)))
      else (BootFailed(out.message), acc)
    case ConnectAgent =>
      if acc.vsockCid.None? then (AgentTimedOut("vsock CID not available"), acc)
      else if out.ok then (AgentConnected, acc.(agentConnected := true))
      else (AgentTimedOut(out.message), acc)
    case RunScript(name) =>
      if !acc.agentConnected then (ScriptFailed(name, "agent not connected"), acc)
      else if BuildProvisionScript(cfg, name).None? then (ScriptFailed(name, "unknown script"), acc)
      else
        var failed := out.doneCode.Some? && out.doneCode.value != 0;
        if failed then (ScriptFailed(name, "script exited with non-zero code"), acc)
        else if !out.ok then (ScriptFailed(name, out.message), acc)
        else (ScriptCompleted(name), acc)
    // services, shutdown and destroy report success even when the call failed
    case StartServices => (ServicesStarted, acc)
    case ShutdownDomain => (ShutdownComplete, acc)
    case DestroyDomain => (DomainStopped, acc)
    case CleanupArtifacts => (CleanupComplete, acc)
  }

  /** One step of the environment: a client command, or the completion of the
      pending worker at index `pick` (modulo the number pending). */
  datatype Arrival = Command(e: Event) | Completion(pick: nat, out: CallOutcome)

  /** A published transition: state before, state after and the event between them. */
  datatype Published = Published(from: VmState, to: VmState, event: Event)

  /** Why the loop returned. */
  datatype Exit =
    | TerminalAtStart   // FlowStarted already reached a terminal state
    | Terminal          // an event reached a terminal state
    | Quiescent         // no worker pending, no new effect, not waiting interactively
    | ChannelClosed     // no worker pending and no further command
    | OutOfInput        // workers still pending but the arrival oracle is exhausted

  /** Every effect the published transitions dispatched, in order. */
  function Emitted(t: (VmState, Event) -> Step, trace: seq<Published>): seq<Effect>
  {
    if |trace| == 0 then []
    else Emitted(t, trace[..|trace| - 1]) + t(trace[|trace| - 1].from, trace[|trace| - 1].event).effects
  }

  /** Each published entry is a transition of the flow, and consecutive entries chain. */
  predicate Chained(t: (VmState, Event) -> Step, trace: seq<Published>)
  {
    (forall i | 0 <= i < |trace| :: trace[i].to == t(trace[i].from, trace[i].event).state) &&
    (forall i | 0 <= i < |trace| - 1 :: trace[i].to == trace[i + 1].from)
  }

  /** Publishing one more entry appends that transition's effects to the emitted ones. */
  lemma EmittedSnoc(t: (VmState, Event) -> Step, trace: seq<Published>, p: Published)
    ensures Emitted(t, trace + [p]) == Emitted(t, trace) + t(p.from, p.event).effects
  {
    assert (trace + [p])[..|trace|] == trace;
  }

  /** A transition from the state the trace ends in extends a chained trace. */
  lemma ChainedSnoc(t: (VmState, Event) -> Step, trace: seq<Published>, p: Published)
    requires Chained(t, trace) && trace != [] && trace[|trace| - 1].to == p.from
    requires p.to == t(p.from, p.event).state
    ensures Chained(t, trace + [p]) && (trace + [p])[0] == trace[0]
    ensures (forall i | 0 <= i < |trace| - 1 :: !IsTerminal(trace[i].to)) && !IsTerminal(p.from) ==>
              forall i | 0 <= i < |trace| :: !IsTerminal((trace + [p])[i].to)
  {
    var u := trace + [p];
    forall i | 0 <= i < |u| ensures u[i].to == t(u[i].from, u[i].event).state {
      if i < |trace| { assert u[i] == trace[i]; }
    }
    forall i | 0 <= i < |u| - 1 ensures u[i].to == u[i + 1].from {
      assert u[i] == trace[i];
      if i + 1 < |trace| { assert u[i + 1] == trace[i + 1]; }
    }
  }

  /** Moving reported workers to the completed ones and adding newly dispatched
      effects to both the pending and the emitted ones keeps the account. */
  lemma Account(pending: seq<Effect>, completed: seq<Effect>, emitted: seq<Effect>,
                rest: seq<Effect>, done: seq<Effect>, effects: seq<Effect>)
    requires multiset(rest) + multiset(done) == multiset(pending)
    requires multiset(pending) + multiset(completed) == multiset(emitted)
    ensures multiset(rest + effects) + multiset(completed + done) == multiset(emitted + effects)
  {
  }

  /** Takes the worker at index `pick` (modulo the number pending) out of the pending ones. */
  method TakeWorker(pending: seq<Effect>, pick: nat) returns (effect: Effect, rest: seq<Effect>)
    requires pending != []
    ensures effect in pending && |rest| == |pending| - 1
    ensures multiset(rest) + multiset{effect} == multiset(pending)
  {
    var i := pick % |pending|;
    effect := pending[i];
    rest := pending[..i] + pending[i + 1..];
    assert pending == pending[..i] + [pending[i]] + pending[i + 1..];
  }

  /** One turn of the `select!`: a command is received as is; a completion takes
      one pending worker and yields its report; with no worker pending the
      completion branch is disabled and nothing is received. */
  method Receive(arrival: Arrival, pending: seq<Effect>, acc: Acc, cfg: ScriptConfig)
    returns (have: bool, event: Event, acc': Acc, rest: seq<Effect>, done: seq<Effect>)
    ensures have <==> arrival.Command? || pending != []
    ensures arrival.Command? ==> event == arrival.e && acc' == acc && rest == pending && done == []
    ensures !have ==> acc' == acc && rest == pending && done == []
    ensures arrival.Completion? && have ==>
      |done| == 1 && done[0] in pending && (event, acc') == WorkerReport(done[0], acc, cfg, arrival.out)
    ensures multiset(rest) + multiset(done) == multiset(pending)
  {
    match arrival {
      case Command(e) =>
        return true, e, acc, pending, [];
      case Completion(pick, out) =>
        if |pending| == 0 {
          return false, FlowStarted, acc, pending, [];
        }
        var effect;
        effect, rest := TakeWorker(pending, pick);
        var report := WorkerReport(effect, acc, cfg, out);
        return true, report.0, report.1, rest, [effect];
    }
  }

  /** The published trace so far: it starts with FlowStarted from `initial`, is
      chained, and every state before the last is non-terminal. */
  predicate PublishedSoFar(t: (VmState, Event) -> Step, initial: VmState, trace: seq<Published>)
  {
    |trace| >= 1 && trace[0] == Published(initial, t(initial, FlowStarted).state, FlowStarted) &&
    Chained(t, trace) && (forall i | 0 <= i < |trace| - 1 :: !IsTerminal(trace[i].to))
  }

  /** What holds of the loop's variables after `k` arrivals: the published trace
      so far ending in `final`, the account of dispatched effects, and what the
      arrivals received explain. */
  predicate Looping(t: (VmState, Event) -> Step, initial: VmState, arrivals: seq<Arrival>, k: nat,
                    trace0: seq<Published>, completed0: seq<Effect>, final: VmState, trace: seq<Published>,
                    pending: seq<Effect>, completed: seq<Effect>, emitted: seq<Effect>)
  {
    PublishedSoFar(t, initial, trace) && final == trace[|trace| - 1].to &&
    emitted == Emitted(t, trace) && multiset(pending) + multiset(completed) == multiset(emitted) &&
    Received(arrivals, k, trace0, trace, completed0, completed)
  }

  /** The loop would not stop after publishing `p` with `count` workers pending:
      a worker is pending, the transition emitted effects, or the flow waits
      interactively. */
  predicate Unsettled(t: (VmState, Event) -> Step, p: Published, count: nat)
  {
    count > 0 || t(p.from, p.event).effects != [] || IsInteractiveWait(p.to)
  }

  /** The loop's history: just after `trace[i]` was published, `counts[i]`
      workers were pending and `marks[i]` had completed; the loop ran on past
      every entry but the last, so each of those was unsettled. */
  predicate Settling(t: (VmState, Event) -> Step, arrivals: seq<Arrival>, trace: seq<Published>,
                     pending: seq<Effect>, completed: seq<Effect>, counts: seq<nat>, marks: seq<nat>)
  {
    |trace| >= 1 && |counts| == |trace| && |marks| == |trace| &&
    counts[|trace| - 1] == |pending| && marks[|trace| - 1] == |completed| &&
    Counted(t, trace, completed, counts, marks) && Linked(arrivals, trace, completed, marks) &&
    Restless(t, trace, counts)
  }

  /** The loop ran on past the last entry: it was unsettled (or FlowStarted). */
  predicate LastUnsettled(t: (VmState, Event) -> Step, trace: seq<Published>, counts: seq<nat>)
    requires |counts| == |trace|
  {
    |trace| >= 2 ==> Unsettled(t, trace[|trace| - 1], counts[|trace| - 1])
  }

  /** Every entry after FlowStarted and before the last was unsettled. */
  predicate Restless(t: (VmState, Event) -> Step, trace: seq<Published>, counts: seq<nat>)
    requires |counts| == |trace|
  {
    forall i | 1 <= i < |trace| - 1 :: Unsettled(t, trace[i], counts[i])
  }

  lemma {:induction false} RestlessStep(t: (VmState, Event) -> Step, trace: seq<Published>, counts: seq<nat>, p: Published, count: nat)
    requires |counts| == |trace| && Restless(t, trace, counts) && LastUnsettled(t, trace, counts)
    ensures Restless(t, trace + [p], counts + [count])
  {
    var u, counts' := trace + [p], counts + [count];
    forall i | 1 <= i < |u| - 1 ensures Unsettled(t, u[i], counts'[i]) {
      assert u[i] == trace[i] && counts'[i] == counts[i];
    }
  }

  /** Pending plus completed workers after each entry are the effects emitted so far. */
  predicate Counted(t: (VmState, Event) -> Step, trace: seq<Published>, completed: seq<Effect>,
                    counts: seq<nat>, marks: seq<nat>)
    requires |counts| == |trace| && |marks| == |trace|
  {
    forall i | 0 <= i < |trace| :: marks[i] <= |completed| && counts[i] + marks[i] == |Emitted(t, trace[..i + 1])|
  }

  /** Between two entries either one more worker completed and its report is the
      event, or none did and the event is a command that arrived. */
  predicate Linked(arrivals: seq<Arrival>, trace: seq<Published>, completed: seq<Effect>, marks: seq<nat>)
    requires |marks| == |trace|
  {
    forall i | 0 <= i < |trace| - 1 ::
      marks[i] <= marks[i + 1] <= marks[i] + 1 &&
      (marks[i + 1] == marks[i] + 1 ==> marks[i] < |completed| && Answers(completed[marks[i]], trace[i + 1].event)) &&
      (marks[i + 1] == marks[i] ==> Command(trace[i + 1].event) in arrivals)
  }

  /** The history of the single FlowStarted entry. */
  lemma {:induction false} SettlingStart(t: (VmState, Event) -> Step, arrivals: seq<Arrival>, trace: seq<Published>,
                      pending: seq<Effect>, completed: seq<Effect>)
    requires |trace| == 1 && multiset(pending) + multiset(completed) == multiset(Emitted(t, trace))
    ensures Settling(t, arrivals, trace, pending, completed, [|pending|], [|completed|])
  {
    assert trace[..1] == trace;
    assert |multiset(pending)| + |multiset(completed)| == |multiset(Emitted(t, trace))|;
  }

  lemma {:induction false} CountedStep(t: (VmState, Event) -> Step, trace: seq<Published>, completed: seq<Effect>,
                    counts: seq<nat>, marks: seq<nat>, p: Published, done: seq<Effect>, count: nat)
    requires |counts| == |trace| && |marks| == |trace| && Counted(t, trace, completed, counts, marks)
    requires count + |completed| + |done| == |Emitted(t, trace + [p])|
    ensures Counted(t, trace + [p], completed + done, counts + [count], marks + [|completed| + |done|])
  {
    var u := trace + [p];
    var counts', marks' := counts + [count], marks + [|completed| + |done|];
    forall i | 0 <= i < |u| ensures marks'[i] <= |completed + done| && counts'[i] + marks'[i] == |Emitted(t, u[..i + 1])| {
      if i < |trace| {
        assert u[..i + 1] == trace[..i + 1];
        assert marks'[i] == marks[i] && counts'[i] == counts[i];
      } else {
        assert u[..i + 1] == u;
      }
    }
  }

  lemma {:induction false} LinkedStep(arrivals: seq<Arrival>, trace: seq<Published>, completed: seq<Effect>, marks: seq<nat>,
                   p: Published, done: seq<Effect>)
    requires |marks| == |trace| && Linked(arrivals, trace, completed, marks)
    requires trace != [] && marks[|trace| - 1] == |completed|
    requires |done| <= 1 && (|done| == 1 ==> Answers(done[0], p.event)) && (done == [] ==> Command(p.event) in arrivals)
    ensures Linked(arrivals, trace + [p], completed + done, marks + [|completed| + |done|])
  {
    var u, c, marks' := trace + [p], completed + done, marks + [|completed| + |done|];
    forall i | 0 <= i < |u| - 1
      ensures marks'[i] <= marks'[i + 1] <= marks'[i] + 1 &&
              (marks'[i + 1] == marks'[i] + 1 ==> marks'[i] < |c| && Answers(c[marks'[i]], u[i + 1].event)) &&
              (marks'[i + 1] == marks'[i] ==> Command(u[i + 1].event) in arrivals)
    {
      if i + 1 < |trace| {
        assert u[i + 1] == trace[i + 1] && marks'[i] == marks[i] && marks'[i + 1] == marks[i + 1];
        if marks[i + 1] == marks[i] + 1 { assert c[marks[i]] == completed[marks[i]]; }
      } else {
        assert marks'[i] == |completed| && u[i + 1] == p;
        if |done| == 1 { assert c[|completed|] == done[0]; }
      }
    }
  }

  /** Publishing `p` after an unsettled last entry, with `done` the worker that
      reported it (or none for a command), extends the history by one entry. */
  lemma {:induction false} SettlingStep(t: (VmState, Event) -> Step, arrivals: seq<Arrival>, trace: seq<Published>,
                     pending: seq<Effect>, completed: seq<Effect>, counts: seq<nat>, marks: seq<nat>,
                     p: Published, done: seq<Effect>, pending': seq<Effect>)
    requires Settling(t, arrivals, trace, pending, completed, counts, marks)
    requires |trace| >= 2 ==> Unsettled(t, trace[|trace| - 1], counts[|trace| - 1])
    requires |done| <= 1 && (|done| == 1 ==> Answers(done[0], p.event)) && (done == [] ==> Command(p.event) in arrivals)
    requires multiset(pending') + multiset(completed + done) == multiset(Emitted(t, trace + [p]))
    ensures Settling(t, arrivals, trace + [p], pending', completed + done,
                     counts + [|pending'|], marks + [|completed| + |done|])
  {
    assert |multiset(pending')| + |multiset(completed + done)| == |multiset(Emitted(t, trace + [p]))|;
    CountedStep(t, trace, completed, counts, marks, p, done, |pending'|);
    LinkedStep(arrivals, trace, completed, marks, p, done);
    RestlessStep(t, trace, counts, p, |pending'|);
  }

  /** One iteration of the loop: receive an arrival and, if something was
      received, apply the flow's transition, publish it and dispatch its effects.
      `done` is the worker whose report was received, if any. */
  method Turn(t: (VmState, Event) -> Step, ghost initial: VmState, cfg: ScriptConfig, arrivals: seq<Arrival>, k: nat,
              final: VmState, trace: seq<Published>, pending: seq<Effect>, completed: seq<Effect>, acc: Acc,
              ghost emitted: seq<Effect>, ghost trace0: seq<Published>, ghost completed0: seq<Effect>)
    returns (have: bool, final': VmState, trace': seq<Published>, pending': seq<Effect>, completed': seq<Effect>,
             acc': Acc, ghost emitted': seq<Effect>, newEffects: seq<Effect>, ghost done: seq<Effect>)
    requires k < |arrivals| && !IsTerminal(final)
    requires Looping(t, initial, arrivals, k, trace0, completed0, final, trace, pending, completed, emitted)
    ensures Looping(t, initial, arrivals, k + 1, trace0, completed0, final', trace', pending', completed', emitted')
    ensures !have ==> trace' == trace && newEffects == [] && pending' == pending && completed' == completed
    ensures have ==> |trace'| == |trace| + 1 && |trace'| >= 2 &&
                     newEffects == t(trace'[|trace'| - 1].from, trace'[|trace'| - 1].event).effects
    ensures have ==> trace' == trace + [trace'[|trace|]] && completed' == completed + done && |done| <= 1 &&
                     (|done| == 1 ==> Answers(done[0], trace'[|trace|].event)) &&
                     (done == [] ==> Command(trace'[|trace|].event) in arrivals)
  {
    var event, rest, reported;
    have, event, acc', rest, reported := Receive(arrivals[k], pending, acc, cfg);
    done := reported;
    if !have {
      Account(pending, completed, emitted, rest, reported, []);
      assert rest + [] == rest && emitted + [] == emitted && completed + reported == completed;
      ReceivedStep(arrivals, k, trace0, trace, trace, completed0, completed, completed, false);
      return false, final, trace, rest, completed + reported, acc', emitted, [], done;
    }
    var step := t(final, event);
    var p := Published(final, step.state, event);
    Account(pending, completed, emitted, rest, reported, step.effects);
    EmittedSnoc(t, trace, p);
    ChainedSnoc(t, trace, p);
    trace' := trace + [p];
    assert trace'[..|trace|] == trace;
    final' := step.state;
    pending', completed' := rest + step.effects, completed + reported;
    assert completed'[..|completed|] == completed;
    ReceivedStep(arrivals, k, trace0, trace, trace', completed0, completed, completed', true);
    emitted' := emitted + step.effects;
    newEffects := step.effects;
    assert arrivals[k].Command? ==> Command(event) in arrivals by {
      if arrivals[k].Command? { assert arrivals[k] == Command(event); }
    }
  }

  /** A turn that also extends the history of pending workers, taken only
      while the last entry was unsettled (the loop did not stop after it). */
  method RecordedTurn(t: (VmState, Event) -> Step, ghost initial: VmState, cfg: ScriptConfig, arrivals: seq<Arrival>,
                      k: nat, final: VmState, trace: seq<Published>, pending: seq<Effect>, completed: seq<Effect>,
                      acc: Acc, ghost emitted: seq<Effect>, ghost trace0: seq<Published>, ghost completed0: seq<Effect>,
                      ghost counts: seq<nat>, ghost marks: seq<nat>)
    returns (have: bool, final': VmState, trace': seq<Published>, pending': seq<Effect>, completed': seq<Effect>,
             acc': Acc, ghost emitted': seq<Effect>, newEffects: seq<Effect>, ghost counts': seq<nat>, ghost marks': seq<nat>)
    requires k < |arrivals| && !IsTerminal(final)
    requires Looping(t, initial, arrivals, k, trace0, completed0, final, trace, pending, completed, emitted)
    requires Settling(t, arrivals, trace, pending, completed, counts, marks) && LastUnsettled(t, trace, counts)
    ensures Looping(t, initial, arrivals, k + 1, trace0, completed0, final', trace', pending', completed', emitted')
    ensures Settling(t, arrivals, trace', pending', completed', counts', marks') && marks'[0] == marks[0]
    ensures !have ==> trace' == trace && newEffects == [] && counts' == counts && pending' == pending
    ensures have ==> |trace'| == |trace| + 1 && |trace'| >= 2 &&
                     newEffects == t(trace'[|trace'| - 1].from, trace'[|trace'| - 1].event).effects
  {
    ghost var done;
    have, final', trace', pending', completed', acc', emitted', newEffects, done :=
      Turn(t, initial, cfg, arrivals, k, final, trace, pending, completed, acc, emitted, trace0, completed0);
    if !have {
      counts', marks' := counts, marks;
      assert pending' == pending && completed' == completed && trace' == trace;
      return;
    }
    ghost var p := trace'[|trace|];
    assert trace' == trace + [p] && completed' == completed + done;
    assert multiset(pending') + multiset(completed + done) == multiset(Emitted(t, trace + [p]));
    SettlingStep(t, arrivals, trace, pending, completed, counts, marks, p, done, pending');
    counts', marks' := counts + [|pending'|], marks + [|completed| + |done|];
  }

  /** The last published transition emitted nothing, nothing is pending,
      and the state is not an interactive wait. */
  predicate Quiet(t: (VmState, Event) -> Step, trace: seq<Published>, pending: seq<Effect>)
  {
    pending == [] && |trace| >= 2 && !IsInteractiveWait(trace[|trace| - 1].to) &&
    t(trace[|trace| - 1].from, trace[|trace| - 1].event).effects == []
  }

  /** A received event is a client command that arrived, or the report of a
      worker that has completed. */
  predicate Explained(e: Event, arrivals: seq<Arrival>, completed: seq<Effect>)
  {
    Command(e) in arrivals || exists c | c in completed :: Answers(c, e)
  }

  /** Only client commands arrive: no worker ever completes. */
  predicate AllCommands(arrivals: seq<Arrival>)
  {
    forall j | 0 <= j < |arrivals| :: arrivals[j].Command?
  }

  /** What holds of the receive loop after `n` arrivals: the turns so far, their
      history, and why the loop stopped if it is no longer `running`. */
  predicate Progress(t: (VmState, Event) -> Step, initial: VmState, arrivals: seq<Arrival>, n: nat,
                     trace0: seq<Published>, completed0: seq<Effect>, final: VmState, trace: seq<Published>,
                     pending: seq<Effect>, completed: seq<Effect>, emitted: seq<Effect>,
                     counts: seq<nat>, marks: seq<nat>, running: bool, exit: Exit)
  {
    n <= |arrivals| &&
    Looping(t, initial, arrivals, n, trace0, completed0, final, trace, pending, completed, emitted) &&
    Settling(t, arrivals, trace, pending, completed, counts, marks) && marks[0] == |completed0| &&
    (running ==> !IsTerminal(final) && exit == OutOfInput && LastUnsettled(t, trace, counts)) &&
    (!running ==> (exit == Terminal && IsTerminal(final)) ||
                  (exit == Quiescent && !IsTerminal(final) && Quiet(t, trace, pending)))
  }

  /** The body of the receive loop: one turn, then the checks of
      `run_event_loop` for a terminal state and for quiescence. */
  method Iterate(t: (VmState, Event) -> Step, ghost initial: VmState, cfg: ScriptConfig, arrivals: seq<Arrival>,
                 n: nat, final: VmState, trace: seq<Published>, pending: seq<Effect>, completed: seq<Effect>,
                 acc: Acc, ghost emitted: seq<Effect>, ghost trace0: seq<Published>, ghost completed0: seq<Effect>,
                 ghost counts: seq<nat>, ghost marks: seq<nat>)
    returns (final': VmState, trace': seq<Published>, pending': seq<Effect>, completed': seq<Effect>, acc': Acc,
             ghost emitted': seq<Effect>, ghost counts': seq<nat>, ghost marks': seq<nat>, running: bool, exit: Exit)
    requires n < |arrivals|
    requires Progress(t, initial, arrivals, n, trace0, completed0, final, trace, pending, completed, emitted,
                      counts, marks, true, OutOfInput)
    ensures Progress(t, initial, arrivals, n + 1, trace0, completed0, final', trace', pending', completed', emitted',
                     counts', marks', running, exit)
  {
    var have, newEffects;
    have, final', trace', pending', completed', acc', emitted', newEffects, counts', marks' :=
      RecordedTurn(t, initial, cfg, arrivals, n, final, trace, pending, completed, acc, emitted, trace0, completed0,
                   counts, marks);
    running, exit := true, OutOfInput;
    if have {
      if IsTerminal(final') {
        running, exit := false, Terminal;
      } else if |pending'| == 0 && newEffects == [] && !IsInteractiveWait(final') {
        running, exit := false, Quiescent;
      }
    }
  }

  /** The receive loop of `run_event_loop`, entered after FlowStarted left a
      non-terminal state: one turn per arrival until a terminal state,
      quiescence, or the end of input. */
  method Drive(t: (VmState, Event) -> Step, ghost initial: VmState, cfg: ScriptConfig, arrivals: seq<Arrival>,
               final0: VmState, trace0: seq<Published>, pending0: seq<Effect>, completed0: seq<Effect>, acc0: Acc,
               ghost emitted0: seq<Effect>)
    returns (final: VmState, trace: seq<Published>, exit: Exit, pending: seq<Effect>, completed: seq<Effect>,
             ghost k: nat, ghost counts: seq<nat>, ghost marks: seq<nat>)
    requires PublishedSoFar(t, initial, trace0) && final0 == trace0[|trace0| - 1].to && !IsTerminal(final0)
    requires |trace0| == 1
    requires emitted0 == Emitted(t, trace0) && multiset(pending0) + multiset(completed0) == multiset(emitted0)
    ensures PublishedSoFar(t, initial, trace) && final == trace[|trace| - 1].to
    ensures IsTerminal(final) <==> exit == Terminal
    ensures exit != TerminalAtStart
    ensures exit == Quiescent ==> Quiet(t, trace, pending)
    ensures exit == ChannelClosed ==> pending == []
    ensures exit == OutOfInput ==> pending != []
    ensures multiset(pending) + multiset(completed) == multiset(Emitted(t, trace))
    // the loop took `k` arrivals, all of them unless it stopped
    ensures Received(arrivals, k, trace0, trace, completed0, completed)
    ensures exit == ChannelClosed || exit == OutOfInput ==> k == |arrivals|
    // the history of pending workers: every entry before the last was unsettled
    ensures Settling(t, arrivals, trace, pending, completed, counts, marks) && marks[0] == |completed0|
  {
    final, trace, pending, completed := final0, trace0, pending0, completed0;
    var acc := acc0;
    ghost var emitted := emitted0;
    var n := 0;
    var running := true;
    exit := OutOfInput;
    counts, marks := [|pending|], [|completed|];
    assert |pending| + |completed| == |Emitted(t, trace0[..1])| by {
      assert trace0[..1] == trace0;
      assert |multiset(pending)| + |multiset(completed)| == |multiset(emitted)|;
    }
    while running && n < |arrivals|
      invariant Progress(t, initial, arrivals, n, trace0, completed0, final, trace, pending, completed, emitted,
                         counts, marks, running, exit)
      decreases |arrivals| - n
    {
      final, trace, pending, completed, acc, emitted, counts, marks, running, exit :=
        Iterate(t, initial, cfg, arrivals, n, final, trace, pending, completed, acc, emitted, trace0, completed0,
                counts, marks);
      n := n + 1;
    }
    if running {
      exit := if |pending| == 0 then ChannelClosed else OutOfInput;
    }
    k := n;
  }

  /** What the first `k` arrivals account for: at most one published event each,
      every one explained, and with commands only, those commands in order. */
  predicate Received(arrivals: seq<Arrival>, k: nat, trace0: seq<Published>, trace: seq<Published>,
                     completed0: seq<Effect>, completed: seq<Effect>)
  {
    k <= |arrivals| &&
    |trace0| <= |trace| <= |trace0| + k && trace[..|trace0|] == trace0 &&
    |completed0| <= |completed| && completed[..|completed0|] == completed0 &&
    (forall i | |trace0| <= i < |trace| :: Explained(trace[i].event, arrivals, completed)) &&
    (AllCommands(arrivals) ==>
       |trace| == |trace0| + k && (forall i | |trace0| <= i < |trace| :: trace[i].event == arrivals[i - |trace0|].e))
  }

  /** What the arrivals account for when the loop returns: at most one published
      event each, every one explained, and with commands only, those commands in
      order, all of them when the input was `exhausted`. */
  predicate Accounted(arrivals: seq<Arrival>, trace0: seq<Published>, trace: seq<Published>,
                      completed0: seq<Effect>, completed: seq<Effect>, exhausted: bool)
  {
    |trace0| <= |trace| <= |trace0| + |arrivals| && trace[..|trace0|] == trace0 &&
    |completed0| <= |completed| && completed[..|completed0|] == completed0 &&
    (forall i | |trace0| <= i < |trace| :: Explained(trace[i].event, arrivals, completed)) &&
    (AllCommands(arrivals) ==>
       (forall i | |trace0| <= i < |trace| :: trace[i].event == arrivals[i - |trace0|].e) &&
       (exhausted ==> |trace| == |trace0| + |arrivals|))
  }

  /** Having received `k` arrivals, and all of them when the input is exhausted,
      accounts for the arrivals. */
  lemma ReceivedAccounted(arrivals: seq<Arrival>, k: nat, trace0: seq<Published>, trace: seq<Published>,
                          completed0: seq<Effect>, completed: seq<Effect>, exhausted: bool)
    requires Received(arrivals, k, trace0, trace, completed0, completed)
    requires exhausted ==> k == |arrivals|
    ensures Accounted(arrivals, trace0, trace, completed0, completed, exhausted)
  {
  }

  /** The account of the arrivals, read off a loop entered after the single
      FlowStarted entry. */
  lemma AccountedAfterFlowStarted(arrivals: seq<Arrival>, trace0: seq<Published>, trace: seq<Published>,
                                  completed: seq<Effect>, exhausted: bool)
    requires |trace0| == 1 && Accounted(arrivals, trace0, trace, [], completed, exhausted)
    ensures |trace| <= |arrivals| + 1
    ensures forall i | 1 <= i < |trace| :: Explained(trace[i].event, arrivals, completed)
    ensures AllCommands(arrivals) ==>
      (forall i | 1 <= i < |trace| :: trace[i].event == arrivals[i - 1].e) &&
      (exhausted ==> |trace| == |arrivals| + 1)
  {
  }

  /** One turn on arrival `k` keeps the account of the arrivals received. */
  lemma ReceivedStep(arrivals: seq<Arrival>, k: nat, trace0: seq<Published>, trace: seq<Published>,
                     trace': seq<Published>, completed0: seq<Effect>, completed: seq<Effect>,
                     completed': seq<Effect>, have: bool)
    requires k < |arrivals| && Received(arrivals, k, trace0, trace, completed0, completed)
    requires !have ==> trace' == trace && completed' == completed && arrivals[k].Completion?
    requires have ==> |trace'| == |trace| + 1 && trace'[..|trace|] == trace
    requires have && arrivals[k].Command? ==> trace'[|trace'| - 1].event == arrivals[k].e && completed' == completed
    requires have && arrivals[k].Completion? ==>
      |completed'| == |completed| + 1 && completed'[..|completed|] == completed &&
      Answers(completed'[|completed|], trace'[|trace'| - 1].event)
    ensures Received(arrivals, k + 1, trace0, trace', completed0, completed')
  {
    if have {
      assert completed'[..|completed|] == completed;
      KeepExplained(arrivals, trace, trace', completed, completed', |trace0|);
      var last := trace'[|trace'| - 1].event;
      if arrivals[k].Command? {
        assert arrivals[k] == Command(last);
      } else {
        assert Answers(completed'[|completed|], last);
      }
      assert Explained(last, arrivals, completed');
      assert trace'[..|trace0|] == trace'[..|trace|][..|trace0|];
      assert completed'[..|completed0|] == completed'[..|completed|][..|completed0|];
      forall i | |trace0| <= i < |trace'| ensures Explained(trace'[i].event, arrivals, completed') {
        if i < |trace| { assert trace'[i].event == trace[i].event; }
      }
      if AllCommands(arrivals) {
        forall i | |trace0| <= i < |trace'| ensures trace'[i].event == arrivals[i - |trace0|].e {
          if i < |trace| { assert trace'[i] == trace[i]; }
        }
      }
    }
  }

  /** Events explained before a turn stay explained after it: the trace and the
      completed workers only grow at their ends. */
  lemma KeepExplained(arrivals: seq<Arrival>, trace: seq<Published>, trace': seq<Published>,
                      completed: seq<Effect>, completed': seq<Effect>, from: nat)
    requires |trace| <= |trace'| && trace'[..|trace|] == trace
    requires |completed| <= |completed'| && completed'[..|completed|] == completed
    requires forall i | from <= i < |trace| :: Explained(trace[i].event, arrivals, completed)
    ensures forall i | from <= i < |trace| :: Explained(trace'[i].event, arrivals, completed')
  {
    forall i | from <= i < |trace| ensures Explained(trace'[i].event, arrivals, completed') {
      assert trace'[i] == trace[i];
      var e := trace[i].event;
      if !(exists j | 0 <= j < |arrivals| :: arrivals[j] == Command(e)) {
        var j :| 0 <= j < |completed| && Answers(completed[j], e);
        assert completed'[j] == completed[j];
      }
    }
  }

  /** `run_event_loop`: FlowStarted first, then one transition per arriving event
      until a terminal state, quiescence, or the end of input. The flow is passed
      as its transition function (`Flows.Stepper` of a `Flows.Flow`). */
  method RunEventLoop(t: (VmState, Event) -> Step, initial: VmState, cfg: ScriptConfig, arrivals: seq<Arrival>)
    returns (final: VmState, trace: seq<Published>, exit: Exit, pending: seq<Effect>, completed: seq<Effect>,
             ghost counts: seq<nat>, ghost marks: seq<nat>)
    // FlowStarted is applied and published first
    ensures |trace| >= 1 && trace[0] == Published(initial, t(initial, FlowStarted).state, FlowStarted)
    // every published entry is one transition of the flow, each starting where the previous ended
    ensures |trace| >= 1 && Chained(t, trace) && final == trace[|trace| - 1].to
    // the loop stops at the first terminal state
    ensures forall i | 0 <= i < |trace| - 1 :: !IsTerminal(trace[i].to)
    ensures IsTerminal(final) <==> exit == TerminalAtStart || exit == Terminal
    ensures exit == TerminalAtStart ==> |trace| == 1
    // quiescence: nothing pending, the last event emitted nothing, and not waiting interactively
    ensures exit == Quiescent ==>
      pending == [] && !IsInteractiveWait(final) && |trace| >= 2 &&
      t(trace[|trace| - 1].from, trace[|trace| - 1].event).effects == []
    ensures exit == ChannelClosed ==> pending == []
    ensures exit == OutOfInput ==> pending != []
    // every dispatched effect is either still pending or has reported exactly once
    ensures multiset(pending) + multiset(completed) == multiset(Emitted(t, trace))
    // the outcome is the pure replay of the published events
    ensures Flows.Replay(t, initial, Events(trace)) == Step(final, Emitted(t, trace))
    // each arrival yields at most one published event, a client command that
    // arrived or the report of a worker that completed
    ensures |trace| <= |arrivals| + 1
    ensures forall i | 1 <= i < |trace| :: Explained(trace[i].event, arrivals, completed)
    // with only commands arriving, they are published in arrival order, all of
    // them unless the loop stopped at a terminal or quiescent state
    ensures |trace| <= |arrivals| + 1 && AllCommands(arrivals) ==>
      (forall i | 1 <= i < |trace| :: trace[i].event == arrivals[i - 1].e) &&
      (exit == ChannelClosed || exit == OutOfInput ==> |trace| == |arrivals| + 1)
    // the loop stops at the first quiescent point: `counts[i]` workers were
    // pending just after `trace[i]` was published (see Settling), and every
    // entry received before the last left a worker pending, emitted effects,
    // or waited interactively
    ensures Settling(t, arrivals, trace, pending, completed, counts, marks) && marks[0] == 0 &&
            Restless(t, trace, counts)
  {
    var first := t(initial, FlowStarted);
    trace := [Published(initial, first.state, FlowStarted)];
    final := first.state;
    pending := first.effects;
    completed := [];
    ghost var emitted := first.effects;
    assert Emitted(t, trace) == emitted by { assert trace[..0] == []; }
    if IsTerminal(final) {
      exit := TerminalAtStart;
      counts, marks := [|pending|], [0];
      SettlingStart(t, arrivals, trace, pending, completed);
    } else {
      ghost var trace0 := trace;
      ghost var k;
      final, trace, exit, pending, completed, k, counts, marks :=
        Drive(t, initial, cfg, arrivals, final, trace, pending, completed, Acc(None, None, false), emitted);
      ReceivedAccounted(arrivals, k, trace0, trace, [], completed, exit == ChannelClosed || exit == OutOfInput);
      AccountedAfterFlowStarted(arrivals, trace0, trace, completed, exit == ChannelClosed || exit == OutOfInput);
    }
    TraceIsReplay(t, trace);
  }

  /** The events of a published trace, in order. */
  function Events(trace: seq<Published>): (r: seq<Event>)
    ensures |r| == |trace| && forall i | 0 <= i < |trace| :: r[i] == trace[i].event
  {
    if |trace| == 0 then [] else Events(trace[..|trace| - 1]) + [trace[|trace| - 1].event]
  }

  /** A chained trace is exactly the pure replay of its events: the loop's final
      state and dispatched effects are what `Flows.Replay` computes. */
  lemma {:induction false} TraceIsReplay(t: (VmState, Event) -> Step, trace: seq<Published>)
    requires trace != [] && Chained(t, trace)
    ensures Flows.Replay(t, trace[0].from, Events(trace)) == Step(trace[|trace| - 1].to, Emitted(t, trace))
    decreases |trace|
  {
    var n := |trace|;
    var init := trace[..n - 1];
    var last := trace[n - 1];
    var one := Flows.Replay(t, last.from, [last.event]);
    assert one == Step(last.to, t(last.from, last.event).effects) by {
      Flows.ReplayCons(t, last.from, last.event, []);
      assert [last.event] + [] == [last.event];
    }
    if n == 1 {
      assert Events(trace) == [last.event];
      assert Emitted(t, trace) == t(last.from, last.event).effects by { assert trace[..0] == []; }
    } else {
      assert Chained(t, init);
      TraceIsReplay(t, init);
      assert Events(trace) == Events(init) + [last.event];
      assert init[0] == trace[0] && init[n - 2].to == last.from;
      Flows.ReplayAppend(t, trace[0].from, Events(init), [last.event]);
    }
  }
}
