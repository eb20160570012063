# rum, modelled in Dafny

rum runs one virtual machine per project on libvirt. It works from a
declarative `rum.toml`, and its commands are `up`, `down`, `destroy`,
`provision`, `init`, `search` and `log`. This project models rum's core
and proves properties of that model. The files are:

- **Lifecycle and flows.**
  - `vm_state.dfy`: the `VmState` enum and `detect_state`'s table. The
    table works from what the files on disk and the hypervisor show.
  - `flow_events.dfy`: the events and effects a flow exchanges.
  - `first_boot.dfy`, `reboot.dfy`, `reprovision.dfy`, `destroy.dfy`,
    `shutdown.dfy`, `reattach.dfy`: the six flows, each a pure transition
    function.
  - `flows.dfy`: `select_flow`, `flow_requires_state`, and the lemmas that
    run a flow over a sequence of events.
  - `event_loop.dfy`: the server event loop that drives a flow, and the
    event each worker reports.
- **Guest agent and host side.**
  - `guest_agent.dfy`: the agent's `provision` (save, run in order, stop at
    the first failure, write the sentinel), the cached boot scripts, and
    the port header of a forwarded connection.
  - `host_agent.dfy`: `wait_for_agent`, the result mapping of
    `run_provision`, the binding of port forwards, and the proxy header.
  - `agent_protocol.dfy`: the values the two sides exchange.
- **Artifacts.**
  - `iso9660.dfy`: the cloud-init seed image. It has a Rock Ridge root
    directory and is written sector by sector into a zeroed buffer.
  - `qcow2.dfy`: the empty qcow2 disk image.
  - `size_parse.dfy`: sizes such as `20G`.
  - `buffers.dfy` and `bytes.dfy`: the byte-buffer and integer-encoding
    layer these builders share.
- **libvirt.**
  - `libvirt.dfy`: the vsock CID parser, the choice of the guest address,
    the SSH key list, the define/redefine step of `up`, and
    `shutdown_domain`.
  - `domain_xml.dfy` and `network_xml.dfy`: the definition trees handed to
    the XML serialiser.
- **Files and text.**
  - `paths.dfy`, `config.dfy`, `logging.dfy`.
  - `watch.dfy`: the inotify bridge.
  - `init.dfy`: the wizard steps and the `rum.toml` generator.
  - `registry.dfy`: the image list, its filter, and the `[image] base`
    editor.
  - `json_observer.dfy`: JSON output lines.
- **Shared.** `strings.dfy`, `sorting.dfy` and `wrappers.dfy`. `sorting.dfy`
  is the stable sort behind Rust's `sort`, `sort_by` and `sort_by_key`.

The model takes the code's own form:
- Pure transition functions and parsers are Dafny functions.
- Loops that build a value are methods, each proved against a
  specification function.
- Code that fills a byte buffer in place writes an `array<byte>`.
- Objects whose state changes are classes: the guest's script directory,
  the logs directory, and the hypervisor's view of one domain.

## Where the model follows the code rather than the design

- The guest agent sorts the scripts it receives only by `order`, stably.
  `run_on` only chooses the suffix of the cached file name
  (`NNN-name.system.sh` or `NNN-name.boot.sh`). The agent does not run the
  system scripts before the boot scripts as a separate partition: it runs
  them in `order` order, whatever their `run_on`.
- The design describes an `UpPhase` tracker and dynamic port forwarding
  driven by polling. The code instead has six flows, driven by one event
  loop, and a fixed list of port forwards. The model follows the flows.
- `next_script_after` looks up the first occurrence of a name. With a
  duplicated script name the first-boot and reboot flows issue the same
  script again and never finish; `Flows.DuplicateNameRepeats` shows this.
  The lemmas about running every script therefore require distinct names.
- `destroy` is selected from every state, Virgin included, without
  checking the state.
- Before saving a new set of scripts, the guest agent clears its scripts
  directory, but it ignores a failure to read the directory or to remove a
  file. A stale `NNN-*.boot.sh` from an earlier provision can then survive
  and run at the next boot (`GuestAgent.StaleSurvivor`). The directory
  holds exactly the new scripts only when every old file was removed
  (`GuestAgent.ClearedAll`).
- An L1 table of 512 MiB entries fills the one cluster `build_qcow2`
  gives it at 4 TiB. Above that, the header describes an L1 table that
  runs past its cluster. The source does not reject such sizes and neither
  does the model; `Qcow2.L1TableFitsItsCluster` states the boundary.

## Model

| member | source | states |
|---|---|---|
| VmStates.DetectState | src/vm_state.rs:109-126 | each of the seven states is returned exactly when its row of the classification table holds: running and stale gives RunningStale, running and not stale Running, then overlay and marker Provisioned, overlay and a defined domain PartialBoot, otherwise Prepared for a defined domain, then ImageCached or Virgin by the image cache |
| VmStates.IsTerminal | src/vm_state.rs:44-47 | Virgin is the only terminal state, and a terminal state is never one the loop waits in for commands |
| VmStates.StaleImpliesRunning | src/vm_state.rs:71-75 | RunningStale is only detected for a domain that is defined and active and whose XML changed |
| VmStates.RunningIgnoresArtifacts | src/vm_state.rs:110-111 | for a running domain the overlay, the marker and the image cache do not change the result, which is always an interactive-wait state |
| FlowEvents.Position | src/flow/first_boot.rs:20 | the index found is that of the first occurrence of the name, and there is none exactly when the name is absent |
| FlowEvents.NextScriptAfter | src/flow/first_boot.rs:19-22 | the script after the first occurrence of the name, and None when the name is absent or that occurrence is last |
| FlowEvents.NextOfDistinct | src/flow/reprovision.rs:19-22 | with distinct names, the script after the i-th one is the (i+1)-th one, and None after the last |
| FirstBoot.New | src/flow/first_boot.rs:12-16 | the script list is every system script followed by every boot script, each group in its given order; `ReprovisionFlow::new` (src/flow/reprovision.rs:12-16) builds the same list and the model uses this function for both |
| FirstBoot.Transition | src/flow/first_boot.rs:30-112 | every failure event from any state goes to Virgin with exactly a cleanup; ForceStop goes to Virgin with a destroy then a cleanup; ShutdownComplete goes to Provisioned; InitShutdown is honoured only in Running; reaching Virgin always schedules the cleanup; a script is issued only from the list, alone, in PartialBoot; the forward arms (start, image ready, prepared, domain started, agent connected) each give their state and single effect; a completion issues the script after the first occurrence of its name, and a completion of the last script or of an unknown name gives Running with StartServices; every pair without an arm is unchanged with no effects |
| Reboot.Transition | src/flow/reboot.rs:27-80 | no transition destroys the domain, removes artifacts or reaches Virgin; ForceStop gives Provisioned with a graceful shutdown; InitShutdown gives Running with a shutdown and ShutdownComplete gives Provisioned from any state; only boot scripts are issued, one at a time, in PartialBoot; from Provisioned, FlowStarted boots the VM and DomainStarted gives PartialBoot with ConnectAgent; AgentConnected issues the first boot script or starts services; a completion issues the script after the first occurrence of its name, and the last or an unknown name gives Running with StartServices; every pair without an arm is unchanged with no effects |
| Reprovision.Transition | src/flow/reprovision.rs:34-73 | outside Running nothing happens; in Running, FlowStarted runs the first script (nothing when there are none), a completion runs the script after the first occurrence of its name (nothing after the last or for an unknown name), InitShutdown issues ShutdownDomain, ShutdownComplete moves to Provisioned, a failed script issues nothing further, and every other event changes nothing; the flow never destroys or cleans up and issues only listed scripts, one at a time |
| Destroy.Transition | src/flow/destroy.rs:28-54 | FlowStarted destroys a running or stale VM (to Running) and otherwise goes straight to cleanup; DestroyComplete and DomainStopped go to Virgin with a cleanup; CleanupComplete goes to Virgin; only the two destructive effects are emitted, at most one per event; Virgin is never left; every other event leaves the state unchanged with no effects |
| Shutdown.Transition | src/flow/shutdown.rs:17-44 | FlowStarted from Running or RunningStale requests a shutdown; in Running, ShutdownComplete and DomainStopped give Provisioned and ForceStop emits a destroy; the flow never cleans up or reaches Virgin, and outside Running nothing but the stale start has an effect; in Running every other event is unchanged with no effects |
| Reattach.Transition | src/flow/reattach.rs:17-45 | outside Running every event is ignored; in Running, FlowStarted starts services, ServicesStarted is a no-op, ShutdownComplete gives Provisioned, ForceStop gives Provisioned with a graceful shutdown, InitShutdown requests a shutdown, and every other event is unchanged with no effects; the flow never destroys or cleans up and only ever moves from Running to Provisioned |
| Flows.Contains | src/flow/mod.rs:156 | the scan of the list answers true exactly when the state is in it |
| Flows.FlowRequiresState | src/flow/mod.rs:155-166 | Ok exactly when the state is one of the listed states, and otherwise a Validation error |
| Flows.SelectFlow | src/flow/mod.rs:114-144 | `up` selects first boot with the system then boot scripts from Virgin, ImageCached, Prepared and PartialBoot, reboot with only the boot scripts from Provisioned, reattach from Running, and RequiresRestart from RunningStale (its only error); `down` only from Running or RunningStale; `destroy` from every state; `provision` only from Running, with every script |
| Flows.SelectedFlowAcceptsState | src/flow/mod.rs:120-142 | every flow selected accepts the state it is selected from as an entry state, with the single exception of destroy selected from Virgin |
| Flows.OnlyDestructiveFlowsReachVirgin | src/flow/first_boot.rs:95-106 | a transition into Virgin from another state happens only in first boot or destroy, and schedules a cleanup unless it is destroy's own cleanup completion |
| Flows.NonDestructiveFlows | src/flow/reboot.rs:70-73 | reboot, reattach, reprovision and shutdown never remove artifacts, and only shutdown answering ForceStop destroys the domain |
| Flows.FirstBootAdvances | src/flow/first_boot.rs:75-81 | with distinct names, in PartialBoot the completion of each script issues the next one and the completion of the last one gives Running with services started |
| Flows.RebootAdvances | src/flow/reboot.rs:50-56 | the same for the boot scripts of a reboot |
| Flows.ReprovisionAdvances | src/flow/reprovision.rs:47-53 | with distinct names, in Running each completion issues the next script and the last one issues nothing |
| Flows.ScriptsIssuedInOrder | src/flow/first_boot.rs:65-81 | for first boot and reboot with distinct names, the agent connection followed by one completion per script issues every script exactly once in list order, then starts services in Running |
| Flows.FirstBootHappyPath | src/flow/first_boot.rs:33-86 | from Virgin, the image, preparation, boot, agent, every script's completion and the services bring the VM to Running with exactly EnsureImage, PrepareVm, BootVm, ConnectAgent, the scripts in order and StartServices |
| Flows.FirstBootPrelude | src/flow/first_boot.rs:33-62 | FlowStarted, ImageReady, VmPrepared and DomainStarted take Virgin to PartialBoot with EnsureImage, PrepareVm, BootVm and ConnectAgent |
| Flows.ReprovisionRunsAll | src/flow/reprovision.rs:37-53 | with distinct names, FlowStarted and one completion per script issue every script in order and leave the VM Running |
| Flows.ReprovisionStopsAtFailure | src/flow/reprovision.rs:55-58 | a failure of the k-th script leaves the VM Running with exactly the first k+1 scripts issued, so no later script runs |
| Flows.DuplicateNameRepeats | src/flow/first_boot.rs:19-22 | with a duplicated name [a, a], every completion of `a` issues `a` again and the boot stays partial, so the sequence never ends |
| Flows.DestroyExpectedSteps | src/flow/destroy.rs:21-47 | the happy path of destroy ends in Virgin after exactly `expected_steps` effects: destroy and cleanup from a running VM, cleanup alone otherwise |
| Flows.ShutdownExpectedSteps | src/flow/shutdown.rs:13-27 | from either entry state, FlowStarted and ShutdownComplete end Provisioned after the one effect `expected_steps` counts |
| Flows.ReattachExpectedSteps | src/flow/reattach.rs:13-27 | reattaching starts services once and stays Running, matching `expected_steps` |
| Flows.ReprovisionExpectedSteps | src/flow/reprovision.rs:30-32 | reprovisioning with distinct names emits exactly `expected_steps` effects, one per script |
| Flows.ReplayAppend | src/flow/event_loop.rs:116-133 | feeding two runs of events one after the other ends where feeding the joined run ends, with the effects of both runs in order |
| Flows.SequencingFrom | src/flow/first_boot.rs:74-81 | for any flow that advances through its scripts, the completions from the k-th script on issue the remaining scripts in order and then end as the flow's last step says |
| Flows.SequencingPrefix | src/flow/first_boot.rs:74-81 | after the first k+1 completions the next k+1 scripts were issued and the state has not moved |
| Flows.StartThenSequence | src/flow/first_boot.rs:64-81 | a start event that issues the first script (or ends at once for no scripts), followed by one completion per script, issues every script in order and then ends as the flow's last step says |
| EventLoop.BuildProvisionScript | src/flow/event_loop.rs:371-413 | rum-drives gives order 0 on System with the drive script, and nothing when the filesystems do not resolve or there are none; rum-system gives order 1 on System and rum-boot order 2 on Boot, each present exactly when configured; any other name gives nothing |
| EventLoop.ScriptOrdersFollowFlowOrder | src/flow/event_loop.rs:387-407 | of the scripts that are built, the drive script runs before the system script and the system script before the boot script, whichever of them are present |
| EventLoop.WorkerReport | src/flow/event_loop.rs:156-366 | each worker reports one of the events that answer its effect; a script fails on a non-zero Done code even when the call succeeded, and completes exactly when the agent was connected, the script is known, no Done code was non-zero and the call succeeded; PrepareVm fails without a base image and ConnectAgent times out without a CID; the image path and CID are stored for later workers |
| EventLoop.TakeWorker | src/flow/event_loop.rs:121 | the completed worker is one of the pending ones and is removed exactly once |
| EventLoop.Receive | src/flow/event_loop.rs:117-124 | a command is received as is; a completion takes one pending worker and yields that worker's report; with no worker pending the completion branch yields nothing |
| EventLoop.Turn | src/flow/event_loop.rs:116-133 | a received event produces exactly one published transition from the current state, and its effects are queued and counted as emitted; the event is the arriving command or the report of the worker that completed, and a completion with no worker pending publishes nothing |
| EventLoop.RecordedTurn | src/flow/event_loop.rs:116-133 | a turn, with the record of pending workers extended by one entry when an event was received and left as it was otherwise |
| EventLoop.Iterate | src/flow/event_loop.rs:116-144 | one pass of the receive loop keeps the loop invariant; it stops with Terminal exactly at a terminal state, and with Quiescent when nothing is pending, the last event emitted nothing and the state is not an interactive wait |
| EventLoop.Drive | src/flow/event_loop.rs:116-145 | the receive loop consumes arrivals one turn at a time: every dispatched effect is pending or has reported once, quiescence means nothing is pending, and the loop reads every arrival unless it stopped at a terminal or quiescent state |
| EventLoop.RunEventLoop | src/flow/event_loop.rs:94-148 | FlowStarted is applied and published first; every published entry is one transition of the flow, starting where the previous one ended; the loop stops at the first terminal state, including right after FlowStarted; quiescence means no worker pending, no new effect and a state that is not Running or RunningStale; with no worker left and no more commands it returns; every dispatched effect is pending or has reported exactly once; the result is the pure replay of the published events; each arrival yields at most one published event, which is a client command that arrived or the report of a worker that completed; with only commands arriving they are published in arrival order, all of them unless the loop stopped at a terminal or quiescent state; the loop stops at the first quiescent point: every entry before the last left a worker pending, emitted effects, or was an interactive wait |
| EventLoop.TraceIsReplay | src/flow/event_loop.rs:126-128 | a chained trace of published transitions is exactly the replay of its events from its first state |
| GuestAgent.ScriptFileNameShape | rum-agent/src/main.rs:97-101 | a saved script's file name starts with its zero-padded order and its name, and ends in `.boot.sh` exactly for boot scripts and `.system.sh` exactly for system scripts |
| GuestAgent.ByOrderTotal | rum-agent/src/main.rs:114 | comparing scripts by `order` is a total preorder, so the sort is well defined |
| GuestAgent.RunOrder | rum-agent/src/main.rs:113-114 | the scripts run are exactly the scripts received, each once |
| GuestAgent.RunOrderIsStableByOrder | rum-agent/src/main.rs:113-116 | scripts run in ascending `order`, and scripts with the same `order` keep the order they were received in |
| GuestAgent.RunOnDoesNotAffectOrder | rum-agent/src/main.rs:97-114 | changing `run_on` leaves the run order unchanged: it only affects the file name |
| GuestAgent.DoneCodesAppend | rum-agent/src/main.rs:122 | the Done codes of two streams in sequence are those of the first followed by those of the second |
| GuestAgent.NoDoneCodes | rum-agent/src/main.rs:119 | a script's own output carries no Done code |
| GuestAgent.StreamReportsEachExit | rum-agent/src/main.rs:119-122 | the stream carries one Done per script that ran, in run order, each holding that script's exit code, with -1 for a spawn failure |
| GuestAgent.FirstNonZero | rum-agent/src/main.rs:124-130 | the index found is the first script whose exit code is not 0, and every script before it exited 0 |
| GuestAgent.FirstFalse | rum-agent/src/main.rs:103-109 | the index found is the first failed write, and every write before it succeeded |
| GuestAgent.FilesOfKeys | rum-agent/src/main.rs:96-102 | the files saved are named exactly after the scripts saved |
| GuestAgent.FilesOfContents | rum-agent/src/main.rs:101-103 | a saved file holds the content of the last script saved under its name |
| GuestAgent.BootFilesAreBootScripts | rum-agent/src/main.rs:310 | the saved files the cached-script run selects by their `.boot.sh` ending are exactly the files of the boot scripts |
| GuestAgent.BootScriptNamesSelect | rum-agent/src/main.rs:306-313 | the names selected are exactly those of the listing that end in `.boot.sh` |
| GuestAgent.CachedRunStops | rum-agent/src/main.rs:321-352 | the scripts launched are a prefix of the sorted ones, all readable, all but the last exited 0, and the run ends early only at an unreadable script or after one that did not exit 0 |
| GuestAgent.ReadPortHeader | rum-agent/src/main.rs:275-281 | a port is read exactly when the stream holds 2 bytes, and it is their big-endian value, below 65536 |
| GuestAgent.RunInOrder | rum-agent/src/main.rs:116-131 | the loop stops at the first script with a non-zero exit code, and the stream holds the output and Done of every script up to and including that one |
| GuestAgent.SelectBootScripts | rum-agent/src/main.rs:306-313 | the directory scan keeps exactly the `.boot.sh` names, in listing order |
| GuestAgent.Guest.constructor | rum-agent/src/main.rs:24-25 | the scripts directory, its files and the sentinel start as given |
| GuestAgent.Guest.Provision | rum-agent/src/main.rs:72-145 | a setup failure reports "(setup)" and changes nothing; the old files whose clearing failed survive, and the scripts are saved over them until a write fails, which reports that script and runs nothing; when every old file was read and removed, the directory holds exactly the scripts saved; otherwise the scripts run in run order, and the first non-zero exit reports that script after streaming every Done up to it, without the sentinel; when all exit 0 the sentinel is written (if the write succeeds) and success is reported with an empty name |
| GuestAgent.Guest.SaveScripts | rum-agent/src/main.rs:95-110 | the scripts are saved in received order over the files already there, up to the first failed write, each replacing a file of the same name; nothing else changes |
| GuestAgent.Guest.ClearScripts | rum-agent/src/main.rs:89-93 | each entry read is removed when its removal succeeds; a failed removal is ignored and the file stays; nothing else changes |
| GuestAgent.Survivors | rum-agent/src/main.rs:89-93 | a file survives the clearing exactly when the directory could not be read, it was not among the entries read, or its removal failed; survivors keep their content |
| GuestAgent.ClearedAll | rum-agent/src/main.rs:89-110 | when every old file was read and removed, the directory afterwards holds exactly the saved scripts |
| GuestAgent.StaleSurvivor | rum-agent/src/main.rs:89-110 | a file that is not one of the saved scripts is an old file whose clearing failed, with its old content |
| GuestAgent.Guest.RunCachedBootScripts | rum-agent/src/main.rs:296-353 | an unreadable directory launches nothing; otherwise the `.boot.sh` names, sorted, are launched as the cached run says |
| GuestAgent.LaunchInOrder | rum-agent/src/main.rs:321-352 | the launch loop launches exactly the cached run: it stops before an unreadable script and after one that did not exit 0 |
| HostAgent.WaitForAgent | src/agent.rs:53-81 | the agent is reported ready exactly when the last ping answered; every earlier ping failed before the 120-second deadline; a timeout is reported only once the deadline has passed; at most 240 pings fail |
| HostAgent.ClockAfterRetries | src/agent.rs:71-72 | after n failed pings at least n retry intervals of 500 ms have passed |
| HostAgent.RetriesBounded | src/agent.rs:32-33 | with a 120-second deadline and 500 ms sleeps, no more than 240 pings can fail before giving up |
| HostAgent.ProvisionVerdict | src/agent.rs:132-149 | a panicked task or a failed RPC becomes an I/O error; a returned result is success exactly when the guest reported success, and otherwise a `ProvisionFailed` naming the guest's failed script |
| HostAgent.RunProvision | src/agent.rs:118-150 | every streamed message reaches `on_log`, in arrival order, before the call's outcome decides the result |
| HostAgent.StartPortForwards | src/agent.rs:159-204 | the call succeeds exactly when every bind succeeds, with one forwarder per forward, in order, listening on `bind:host` and aimed at the guest port; otherwise the first failed bind aborts it with an I/O error after the binds before it |
| HostAgent.ProxyStream | src/agent.rs:206-217 | the vsock stream is a 2-byte header followed by the proxied bytes unchanged |
| HostAgent.PortHeaderRoundTrip | src/agent.rs:214 | the guest's `read_u16` of the header recovers the guest port the host wrote, whatever follows it |
| Init.Rank | src/init.rs:110-118 | the wizard's seven steps are ordered, from `OsImage` first to `Done` last |
| Init.StepsAreInverse | src/init.rs:121-142 | `next` moves one step forward and stops at `Done`; `prev` moves one step back and stops at `OsImage`; away from those ends each undoes the other |
| Init.Next | src/init.rs:121-130 | `next` moves one step forward in the wizard order, and stays at Done |
| Init.Prev | src/init.rs:132-142 | `prev` moves one step back in the wizard order, and stays at OsImage |
| Init.DefaultConfig | src/init.rs:91-106 | the first preset's URL with its label as comment, 2 CPUs, 2048 MB, a 20G disk, NAT on, no hostname, and no interfaces, mounts, drives or filesystems |
| Init.TomlLines | src/init.rs:590-685 | the file opens with the image section and closes with the trailer |
| Init.WalkRank | src/init.rs:164-222 | pressing next k times moves the wizard k steps on, never past `Done` |
| Init.WalkFromStart | src/init.rs:164-222 | from the first step the wizard reaches `Done` exactly after six or more steps forward |
| Init.UnlinesAppend | src/init.rs:590-685 | the text of two line lists written one after the other is the two texts concatenated |
| Init.FlattenSnoc | src/init.rs:620-665 | writing one more item appends exactly that item's lines |
| Init.FlattenMember | src/init.rs:620-665 | every line of a repeated section belongs to one item's block |
| Init.QuotedAll | src/init.rs:657 | each drive name is quoted, in order, and nothing else |
| Init.AppendImage | src/init.rs:593-599 | appends the optional `# comment` line, `[image]`, the quoted base URL and a blank line, after the lines already written |
| Init.AppendResources | src/init.rs:601-606 | appends `[resources]`, cpus, memory_mb, the quoted disk and a blank line |
| Init.AppendInterface | src/init.rs:620-627 | appends one `[[network.interfaces]]` block, with an `ip` line only for a non-empty address |
| Init.AppendMount | src/init.rs:631-642 | appends one `[[mounts]]` block, with `readonly = true` only for a read-only mount and `tag` only for a non-empty tag |
| Init.AppendDrive | src/init.rs:645-649 | appends one `[drives.<name>]` block with its quoted size |
| Init.AppendFs | src/init.rs:652-665 | appends one `[[fs.<type>]]` block: `drive` for exactly one drive, otherwise the `drives` list, then the target and an optional pool |
| Init.AppendNetworkHead | src/init.rs:611-618 | appends `[network]`, `nat = false` only when NAT is off, the hostname only when one is set, and a blank line |
| Init.AppendNetwork | src/init.rs:608-628 | appends the network section with every interface block in order when NAT is off, a hostname is set or interfaces exist, and nothing otherwise |
| Init.AppendMounts | src/init.rs:630-642 | appends one mount block per mount, in order |
| Init.AppendDrives | src/init.rs:644-649 | appends one drive block per drive, in order |
| Init.AppendFilesystems | src/init.rs:651-665 | appends one filesystem block per filesystem, in order |
| Init.GenerateToml | src/init.rs:590-685 | the generated text is the image, resources, network, mounts, drives and filesystems sections, the mounts hint when there are no mounts, and the closing comments, one newline after each line |
| Init.ItemLinesNoHeader | src/init.rs:620-665 | no line of an interface, mount, drive or filesystem block is the `[network]` header |
| Init.ItemLinesNoComment | src/init.rs:620-665 | no line of an interface, mount, drive or filesystem block is a comment |
| Init.FlattenAll | src/init.rs:620-665 | a property of every line of every item's block holds for the whole repeated section |
| Init.HeadLinesPlain | src/init.rs:593-606 | the image and resources sections hold no `[network]` header, and the resources section no comment |
| Init.CommentLinesNoHeader | src/init.rs:667-682 | neither the mounts hint nor the closing comments hold a `[network]` line |
| Init.FlattenNoHeader | src/init.rs:620-665 | items without a `[network]` header give none once written one after another |
| Init.NoHeaderInItems | src/init.rs:630-665 | the mount, drive and filesystem sections hold no `[network]` header |
| Init.NetworkSectionIff | src/init.rs:608-628 | the file has a `[network]` section exactly when NAT is off, a hostname is set or extra interfaces exist |
| Init.NetworkBlockHeader | src/init.rs:609-611 | the network block holds its header exactly when the file needs one |
| Init.NoHeaderOutsideNetwork | src/init.rs:593-682 | no section other than the network section holds a `[network]` line |
| Init.InterfaceIpIff | src/init.rs:623-625 | an interface block has an `ip` line exactly when an address was given |
| Init.MountLinesIff | src/init.rs:635-640 | a mount block has `readonly = true` exactly for a read-only mount, and a `tag` line exactly when a tag was given |
| Init.FsLinesIff | src/init.rs:654-663 | a filesystem block has a `drive` line naming the drive exactly when it has one drive, a `drives` list of the quoted names joined by ", " exactly otherwise, and a `pool` line exactly when a pool was given |
| Init.MountsHintIff | src/init.rs:667-673 | the commented mounts hint is in the file exactly when there are no mounts |
| Init.HintNotInBlocks | src/init.rs:608-665 | the network, mount, drive and filesystem sections hold no `# [[mounts]]` line |
| Init.EndsWithTrailer | src/init.rs:675-684 | every generated file ends with the commented provisioning and advanced sections |
| Init.DefaultToml | src/init.rs:91-106 | the non-interactive file has the first preset's image and resources sections, no network section, no mounts, drives or filesystems, then the mounts hint and the closing comments |
| Iso9660.ToU32 | src/iso9660.rs:94 | `as u32` keeps a value below 2^32 and leaves a value that already fits unchanged |
| Iso9660.Utf8Char | src/iso9660.rs:158 | a character encodes to one to four bytes, and to exactly one byte when it is ASCII |
| Iso9660.Utf8OfAscii | src/iso9660.rs:56-59 | an ASCII volume identifier's bytes are its characters, one byte each |
| Iso9660.SectorsForBounds | src/iso9660.rs:536-542 | every file takes at least one sector, enough sectors to hold its bytes, and no whole sector more than it needs |
| Iso9660.FileRunsConsecutive | src/iso9660.rs:84-87 | each file starts on the sector after the previous file's last, and its data fits before the next file starts |
| Iso9660.FileStartMonotone | src/iso9660.rs:84-87 | a later file never starts before an earlier one |
| Iso9660.FileRegionsDisjoint | src/iso9660.rs:78-88 | the data regions of two files never overlap, all start at or after sector 22, and all end inside the image |
| Iso9660.PlanLayout | src/iso9660.rs:80-88 | the layout gives each file its start sector and its length, in order, and the total is the sector after the last file |
| Iso9660.U32BothRoundTrip | src/iso9660.rs:552-555 | a both-endian u32 reads back as the value from its little-endian half and from its big-endian half |
| Iso9660.U16BothRoundTrip | src/iso9660.rs:558-561 | a both-endian u16 reads back as the value from both halves |
| Iso9660.Level1Char | src/iso9660.rs:511-521 | every character of a sanitised name is an upper-case letter, a digit, `_` or `.` |
| Iso9660.Level1Sanitize | src/iso9660.rs:511-521 | sanitising keeps the length and maps each character on its own |
| Iso9660.FindDot | src/iso9660.rs:523 | the index found is the first `.` of the name, and none means the name has no `.` |
| Iso9660.Level1NameShape | src/iso9660.rs:510-532 | a Level 1 name ends in `;1`, uses only Level 1 characters, and has at most 8 characters without a dot, or at most 8 before the first dot and at most 3 after it |
| Iso9660.ToLevel1Name | src/iso9660.rs:510-532 | a Level 1 name is 2 to 14 characters long and ends in `;1` |
| Iso9660.SectorsFor | src/iso9660.rs:536-542 | a file takes at least one sector, and exactly one when it fits in one |
| Iso9660.DirRecord | src/iso9660.rs:354-371 | the record is as long as its computed length, and its first byte holds that length |
| Iso9660.WriteImage | src/iso9660.rs:93-120 | the writes leave the system area before sector 16 unchanged and make the image hold its descriptors, path tables, root directory, ER entry and every file's data; every byte outside those runs keeps its value, in particular the rest of sector 20 after the last directory record and the rest of sector 21 after the ER entry |
| Iso9660.Level1NameOfMetaData | src/iso9660.rs:663 | `meta-data` becomes `META_DAT;1` |
| Iso9660.Level1NameOfEightThree | src/iso9660.rs:668 | `file.txt` becomes `FILE.TXT;1` |
| Iso9660.FindDotAfterBase | src/iso9660.rs:523-527 | in a base without dots followed by `.` and an extension, the dot found is the one after the base |
| Iso9660.NoDotFound | src/iso9660.rs:528-530 | a name without dots has no dot to split at |
| Iso9660.DirRecordLayout | src/iso9660.rs:354-371 | a directory record starts with its own length, holds extent and size both-endian, the directory flag exactly for directories, the volume sequence number 1, the name length and the name, and after the padding that makes it even the system-use area |
| Iso9660.NamePaddingEven | src/iso9660.rs:356-358 | the system-use area always starts at an even offset |
| Iso9660.FixedPart | src/iso9660.rs:361-365 | the first 32 bytes of a record hold its length, extent, size, flags and volume sequence number |
| Iso9660.TailPart | src/iso9660.rs:366-369 | after the fixed part come the name length, the name and, after padding, the system-use area |
| Iso9660.SuspSp | src/iso9660.rs:403-405 | the SP entry is 7 bytes long |
| Iso9660.SuspCeFields | src/iso9660.rs:415-425 | the CE entry is tagged `CE`, is 28 bytes long, and holds the block, offset and length both-endian |
| Iso9660.SuspErLayout | src/iso9660.rs:434-456 | the ER entry's length byte is its own length, and its identifier is `RRIP_1991A` |
| Iso9660.RripNm | src/iso9660.rs:465-476 | the NM entry's length byte is its own length, and the name follows its 5-byte header unchanged |
| Iso9660.RripPxMode | src/iso9660.rs:484-494 | the PX entry holds the mode and the link count both-endian |
| Iso9660.FixedRecordAgrees | src/iso9660.rs:340-350 | the fixed record written into the PVD has the same bytes as a variable record with no system-use area |
| Iso9660.FixedRecordOrdered | src/iso9660.rs:340-350 | the fields of the fixed record are written in increasing order, within its 33 + name bytes |
| Iso9660.PvdNumbersOrdered | src/iso9660.rs:161-167 | the numeric PVD fields are written in increasing order, between bytes 80 and 156 |
| Iso9660.PvdOrdered | src/iso9660.rs:149-182 | every PVD field lies inside sector 16, and no two overlap |
| Iso9660.WritePvd | src/iso9660.rs:149-182 | sector 16 holds every PVD field afterwards, and no byte outside sector 16 changes |
| Iso9660.WriteVdst | src/iso9660.rs:191-196 | sector 17 starts with type 255, `CD001` and version 1, and no byte outside sector 17 changes |
| Iso9660.EncodeRoundTrip | src/iso9660.rs:226-235 | a path-table number written in either byte order reads back in that order as itself |
| Iso9660.WritePathTable | src/iso9660.rs:222-238 | the 10-byte entry holds the identifier length 1, the root extent and the parent number 1 in the table's byte order, and no other byte changes |
| Iso9660.DotSystemUse | src/iso9660.rs:280-284 | the "." record's system-use area is 35 bytes long |
| Iso9660.DotRecord | src/iso9660.rs:285 | the "." record is 69 bytes long |
| Iso9660.DotDotRecord | src/iso9660.rs:290 | the ".." record is 34 bytes long |
| Iso9660.FileSystemUse | src/iso9660.rs:301-305 | a file's system-use area is the NM and PX entries, 49 bytes more than the name |
| Iso9660.FileRecord | src/iso9660.rs:298-307 | a file's record has the length of a record with its Level 1 name and its Rock Ridge entries |
| Iso9660.FlattenStep | src/iso9660.rs:286-309 | writing one more record appends exactly that record |
| Iso9660.FlattenPrefix | src/iso9660.rs:286-309 | the records written so far never exceed the whole directory |
| Iso9660.FileRecordList | src/iso9660.rs:298-310 | there is one record per file |
| Iso9660.RootRecords | src/iso9660.rs:278-310 | the root directory has the "." and ".." records and one record per file |
| Iso9660.WriteRuns | src/iso9660.rs:286-309 | the records are written one after the other from the start position, and nothing outside them changes |
| Iso9660.WriteRootDirectory | src/iso9660.rs:266-311 | sector 20 holds the "." record with SP and CE, the ".." record and one record per file, in order, and nothing outside the directory changes |
| Iso9660.Layout | src/iso9660.rs:82-87 | there is one layout entry per file |
| Iso9660.FileFitsImage | src/iso9660.rs:84-91 | each file's data lies between sector 22 and the end of the image |
| Iso9660.WriteFiles | src/iso9660.rs:116-120 | each file's data is at the start of its sector, and nothing before sector 22 or past the image changes |
| Iso9660.WriteVolumeDescriptors | src/iso9660.rs:94-95 | sectors 16 and 17 hold the PVD and the terminator, and nothing else changes |
| Iso9660.WritePathTables | src/iso9660.rs:96-97 | sectors 18 and 19 hold the little-endian and the big-endian path table, and nothing else changes |
| Iso9660.WriteDescriptors | src/iso9660.rs:94-97 | the volume descriptors and both path tables are in place, and nothing outside sectors 16 to 19 changes |
| Iso9660.WriteDirectory | src/iso9660.rs:99-114 | the root directory is at the start of sector 20 and the ER entry at the start of sector 21; only the bytes of those two runs change, so the rest of both sectors keeps its value |
| Iso9660.BuildIso | src/iso9660.rs:55-123 | the image is sector-aligned and sized for every file; its system area is all zeros; it holds the descriptors, path tables, directory, ER entry and every file's data where the layout puts them; every byte outside those runs is zero, in particular sector 20 after the last directory record (where a reader stops at a zero record length) and sector 21 after the ER entry |
| Iso9660.ZeroImage | src/iso9660.rs:91 | the allocated image is fresh, has the requested length and holds only zeros |
| Iso9660.GapsKept | src/iso9660.rs:99-114 | the image's writes leave the bytes after the root directory's records in sector 20 and after the ER entry in sector 21 as they were |
| Iso9660.ZerosRemain | src/iso9660.rs:91-120 | writes into the zero-filled image that keep every byte outside their runs leave the system area, every uncovered byte and both directory gaps zero |
| Iso9660.ImageParts | src/iso9660.rs:93-120 | an image holding all its runs holds each part's runs |
| Iso9660.HoldsU32Both | src/iso9660.rs:552-555 | a stored both-endian u32 reads back as its value in both byte orders |
| Iso9660.HoldsU16Both | src/iso9660.rs:558-561 | a stored both-endian u16 reads back as its value in both byte orders |
| Iso9660.FixedRecordReadBack | src/iso9660.rs:340-350 | a reader of the PVD's root record finds its length, extent, size, directory flag and name |
| Iso9660.PvdNumbersReadBack | src/iso9660.rs:161-167 | a reader finds the total sectors, the 2048-byte block size and both path-table locations in the PVD |
| Iso9660.PvdReadBack | src/iso9660.rs:149-182 | a reader of sector 16 finds type 1, `CD001`, the space-padded volume identifier, the sector count, both path-table locations, a root record pointing at the root directory, and file structure version 1 |
| Iso9660.VdstReadBack | src/iso9660.rs:191-196 | a reader of sector 17 finds the terminator |
| Iso9660.PathTableReadBack | src/iso9660.rs:222-238 | a reader of a path table finds the root extent and parent 1 in the table's byte order |
| Iso9660.VolumeDescriptorsReadBack | src/iso9660.rs:94-95 | in a built image the PVD names the volume, the image's size in sectors, both path tables and the root directory at sector 20, and sector 17 is the terminator |
| Iso9660.PathTablesLocateRoot | src/iso9660.rs:96-97 | in a built image both path tables point at the root directory in sector 20 |
| Iso9660.FlattenHolds | src/iso9660.rs:286-309 | each record sits in the directory right after the records before it |
| Iso9660.DotSystemUseEntries | src/iso9660.rs:280-284 | the "." record's system-use area is the SP entry followed by a CE entry pointing at the continuation sector, offset 0, for the ER entry's length |
| Iso9660.DotRecordDescribes | src/iso9660.rs:285 | the "." record names the root sector and a 2048-byte size, is a directory, has the one-byte name 0x00, and carries the SP and CE entries |
| Iso9660.NmEntryFields | src/iso9660.rs:465-476 | a stored NM entry is tagged `NM`, has flags 0, and holds the name |
| Iso9660.PxEntryFields | src/iso9660.rs:484-494 | a stored PX entry is tagged `PX` and holds the mode and link count |
| Iso9660.FileSystemUseEntries | src/iso9660.rs:301-305 | a file's system-use area is an NM entry with its real name followed by a PX entry for a regular rw-r--r-- file with one link |
| Iso9660.DirRecordReadBack | src/iso9660.rs:354-371 | a reader of a record finds its extent, size, directory flag, name and system-use area |
| Iso9660.FileRecordDescribes | src/iso9660.rs:298-307 | a file's record holds its start sector and length (cast to u32), is not a directory, has the file's Level 1 name, and carries its Rock Ridge entries |
| Iso9660.DirectoryReadBack | src/iso9660.rs:278-287 | the root directory of a built image starts with the "." record pointing at sector 21 for the ER entry |
| Iso9660.ContinuationReadBack | src/iso9660.rs:109-114 | sector 21 of a built image starts with the ER entry naming `RRIP_1991A` |
| Iso9660.FileReadBack | src/iso9660.rs:117-120 | in a built image each file's record follows the records before it in the root directory, and the file's data is at the start of the sector the layout gives it |
| JsonObserver.EscapeCons | src/observer/json.rs:35 | the two replace passes escape each character on its own: a backslash becomes two, a quote becomes `\"`, anything else is kept |
| JsonObserver.Escape | src/observer/json.rs:35 | a line without backslashes or double quotes is left as it is |
| JsonObserver.EscapeReadsBack | src/observer/json.rs:35-37 | an escaped text followed by a quote reads back as the original text, ending exactly at that quote, whatever follows |
| JsonObserver.JsonEffect | src/observer/json.rs:31-52 | every effect line starts with the `type`, `stream` and `kind` members, its kind being `log`, `progress` or `info` by variant |
| JsonObserver.DataReadsBack | src/observer/json.rs:33-50 | the `data` member of a log or info line reads back as the original text, and the object closes right after it |
| JsonObserver.ProgressNumbers | src/observer/json.rs:40-44 | a progress line carries `current` and `total` as unquoted decimals that read back as the two counts |
| Libvirt.QuoteIndex | src/backend/libvirt.rs:840 | the index found is the first `"` or `'`, and none means the text holds neither |
| Libvirt.AddressStart | src/backend/libvirt.rs:832-837 | the CID value starts inside the section, after `address="` or, when that is absent, after `address='` |
| Libvirt.CidOf | src/backend/libvirt.rs:831-841 | a CID read from the section always fits in a u32 |
| Libvirt.ParseVsockCid | src/backend/libvirt.rs:823-842 | no live XML gives no CID, and any CID found fits in a u32 |
| Libvirt.MarkersHeadUnique | src/backend/libvirt.rs:827-836 | none of the searched markers can overlap a later copy of itself from its first character, so a search cannot start inside an earlier match |
| Libvirt.SectionOf | src/backend/libvirt.rs:827-829 | the section found runs from the first opening marker up to the first closing marker after it |
| Libvirt.Section | src/backend/libvirt.rs:827-829 | there is no section without an opening marker, and a section found is the text that starts at the first opening marker |
| Libvirt.SectionAt | src/backend/libvirt.rs:827-829 | the section is the text between the first `<vsock` and the first `</vsock>` after it |
| Libvirt.VsockCidConfined | src/backend/libvirt.rs:827-841 | the CID is read only from inside the first `<vsock` section, whatever the rest of the XML holds |
| Libvirt.CidAfter | src/backend/libvirt.rs:839-841 | the CID is the u32 parse of the text between the attribute's opening quote and the next quote of either kind |
| Libvirt.QuoteFirst | src/backend/libvirt.rs:840 | the first quote after a quote-free value ends that value |
| Libvirt.CidDoubleQuoted | src/backend/libvirt.rs:832-841 | with `address="`, the CID is the u32 parse of the value up to the next quote |
| Libvirt.CidSingleQuoted | src/backend/libvirt.rs:834-841 | without `address="` and with `address='`, the CID is the u32 parse of the value up to the next quote |
| Libvirt.CidNeedsAddress | src/backend/libvirt.rs:833-837 | a section with neither attribute form gives no CID |
| Libvirt.CidReadsBack | src/backend/libvirt.rs:822-841 | a CID written as `address="N"` reads back as N when it fits in a u32, and gives no CID otherwise |
| Libvirt.FirstIpv4 | src/backend/libvirt.rs:548-553 | the address chosen is the interface's first IPv4 one (type 0), and none means it has no IPv4 address |
| Libvirt.SelectIface | src/backend/libvirt.rs:543-574 | the interface chosen is the first one the mode accepts that has an IPv4 address, and none means there is no such interface |
| Libvirt.Accepts | src/backend/libvirt.rs:543-567 | in NAT mode with no extra interfaces every interface is accepted, and an interface with an extra interface's MAC never is |
| Libvirt.ExtraMacs | src/backend/libvirt.rs:534-541 | there is one generated MAC per extra interface, the i-th for index i |
| Libvirt.GetVmIp | src/backend/libvirt.rs:521-582 | a failed interface query, and every failure to find an address, gives `SshNotReady` for the VM |
| Libvirt.NatModeAddress | src/backend/libvirt.rs:532-554 | with no SSH interface configured, an address is found exactly when some interface whose MAC is not an extra interface's (case-insensitively) has an IPv4 address, and it is the first IPv4 address of the first such interface |
| Libvirt.NamedModeAddress | src/backend/libvirt.rs:555-575 | with an SSH interface named, an address is found exactly when an interface with the MAC of the first extra interface on that network has an IPv4 address, and it is the first IPv4 address of such an interface |
| Libvirt.UnknownInterfaceNotReady | src/backend/libvirt.rs:557-581 | naming an SSH interface that is not configured always gives `SshNotReady` |
| Libvirt.CollectSshKeys | src/backend/libvirt.rs:644-658 | an unreadable public key is an I/O error; otherwise the keys are the generated key followed by every configured key, in order |
| Libvirt.GeneratedKeyFirst | src/backend/libvirt.rs:655-656 | the generated key is read with surrounding whitespace trimmed and comes first |
| Libvirt.ShutdownOutcome | src/backend/libvirt.rs:794-817 | a stopped domain succeeds at once; a failed shutdown call is a libvirt error; a domain that stops within the 10 checks succeeds after that many sleeps; otherwise it is destroyed after 10 sleeps, and only a failed destroy is an error; at most 10 sleeps, and the domain is left running exactly when the result is an error |
| Libvirt.Host.constructor | src/backend/libvirt.rs:161 | the hypervisor starts with the given domain, run state and saved XML |
| Libvirt.Host.Configure | src/backend/libvirt.rs:159-197 | a missing domain is defined; an unchanged one is kept; a changed one is refused with `RequiresRestart` while it runs, and otherwise undefined and defined again; a failed undefine or define is a libvirt error, and a failed save an I/O error; the XML is saved exactly when the call succeeds; the run state never changes |
| Libvirt.Host.Shutdown | src/backend/libvirt.rs:794-817 | the result, the number of sleeps and the new run state are those of the shutdown outcome, and the definition and saved XML are unchanged |
| DomainXml.Filesystems | src/domain_xml.rs:267-283 | there is one filesystem per mount |
| DomainXml.DriveDisks | src/domain_xml.rs:321-338 | there is one extra disk per drive |
| DomainXml.GenerateDomain | src/domain_xml.rs:247-390 | the domain built is the definition the configuration, the overlay and seed paths, the mounts and the drives determine |
| DomainXml.MemoryBackingIffMounts | src/domain_xml.rs:254-265 | the domain has a memfd, shared memory backing exactly when there are mounts |
| DomainXml.FilesystemsFollowMounts | src/domain_xml.rs:267-283 | each mount becomes, in order, a virtiofs passthrough filesystem from its source to its tag, read-only exactly when the mount is |
| DomainXml.DiskOrder | src/domain_xml.rs:285-338 | the disks are the qcow2 overlay on vda (virtio), the raw seed CD-ROM on sda (sata), then each drive's qcow2 file on its own device (virtio), in order; only the seed is read-only |
| DomainXml.ResourcesCarried | src/domain_xml.rs:340-348 | the domain carries the name, type, machine and CPU count from the configuration, and its memory in KiB as 1024 times the configured megabytes |
| DomainXml.FixedDevices | src/domain_xml.rs:347-386 | every domain boots from hd as an x86_64 hvm guest, on the `default` network with a virtio NIC, with a pty serial port and a serial console |
| DomainXml.XmlHasChanged | src/domain_xml.rs:393-406 | a saved XML that cannot be read counts as changed; otherwise the domain changed exactly when the saved text differs from the XML generated now |
| DomainXml.SavedDefinitionUnchanged | src/domain_xml.rs:393-406 | right after saving, the domain counts as unchanged; later it counts as changed exactly when the definition generated then differs, as long as the serialiser maps distinct definitions to distinct text |
| NetworkXml.PrefixedName | src/network_xml.rs:41-43 | the name is `rum-`, the VM id, `-` and the network name, each recoverable from its position |
| NetworkXml.PrefixedNameInjective | src/network_xml.rs:41-43 | within one VM, different configured networks get different libvirt names |
| NetworkXml.Djb2 | src/network_xml.rs:77-80 | the wrapping hash always fits in a u32 |
| NetworkXml.Octet | src/network_xml.rs:81 | the third octet chosen is always between 2 and 254 |
| NetworkXml.DeriveSubnet | src/network_xml.rs:70-83 | with a hint that holds a dot, the subnet is the hint up to its last dot; otherwise it is `192.168.` followed by the octet the name's hash selects |
| NetworkXml.Djb2Snoc | src/network_xml.rs:78-80 | each byte steps the hash by times 33 plus the byte, modulo 2^32 |
| NetworkXml.ModStep | src/network_xml.rs:79-81 | away from the modulus, one more before the reduction is one more after it |
| NetworkXml.NeighbourNamesDiffer | src/network_xml.rs:77-82 | names that differ only in a last byte one apart get neighbouring octets, unless the hash sits at a wrap-around point |
| NetworkXml.Djb2Step | src/network_xml.rs:78-80 | one step of the hash from a known value |
| NetworkXml.NetAAndNetB | src/network_xml.rs:113-117 | `net-a` and `net-b` get octets 189 and 190, so their subnets differ |
| NetworkXml.NetworkAddresses | src/network_xml.rs:48-64 | the network keeps its name, has netmask 255.255.255.0, and uses host 1 of the subnet as gateway and hosts 100 to 254 for DHCP, so the gateway is never leased |
| NetworkXml.GenerateNetwork | src/network_xml.rs:48-64 | the network keeps its name and netmask 255.255.255.0, and its gateway and both DHCP bounds are addresses in the subnet |
| Paths.DirName | src/paths.rs:13-16 | the work directory's name starts with the config id, and is the id alone exactly when no VM name is given |
| Paths.DirNameInjective | src/paths.rs:13-16 | for one config id, different VM names never share a work directory |
| Paths.WorkDir | src/paths.rs:12-21 | the work directory is `rum/<dir name>` under the local data directory, or under `/tmp` when there is none |
| Paths.OverlayPath | src/paths.rs:24-26 | the overlay is `overlay.qcow2` directly inside the work directory |
| Paths.SeedPath | src/paths.rs:29-31 | the seed image is `seed-<hash>.iso` directly inside the work directory |
| Paths.DomainXmlPath | src/paths.rs:34-36 | the saved domain XML is `domain.xml` directly inside the work directory |
| Paths.DrivePath | src/paths.rs:39-41 | a drive image lies below the work directory; it is `drive-<name>.qcow2` directly inside it exactly when the drive name holds no '/', and otherwise `join` nests it at least one level deeper |
| Paths.Components | src/paths.rs:39-41 | the pieces `join` adds for a name are non-empty and hold no '/', and a non-empty name without '/' is one piece |
| Paths.ComponentsJoin | src/paths.rs:39-41 | splitting at '/' gives back the non-empty, '/'-free pieces that were joined with '/' |
| Paths.DriveNameNests | src/paths.rs:39-41 | a drive named `a/b` is stored as `drive-a/b.qcow2`, and one named `x/../../y` adds `..` components that lead out of the work directory |
| Paths.ConfigPathFile | src/paths.rs:44-46 | the config-path record is `config_path` directly inside the work directory |
| Paths.ArtifactsInWorkDir | src/paths.rs:24-46 | the overlay, seed, domain XML, drive and config-path files all lie below the work directory; all are direct children of it when the drive name holds no '/' |
| Paths.SeedFilterSelectsSeeds | src/backend/libvirt.rs:124-135 | the current seed image matches the stale-seed filter and no other per-VM file does, so clearing stale seeds removes only seed images |
| Paths.ArtifactNamesDistinct | src/paths.rs:24-46 | the five per-VM file names differ pairwise whatever the hash and the drive name |
| Config.Hostname | src/config.rs:83-89 | the hostname is the configured one when set, and the VM name when it is empty |
| Config.FirstFailure | src/config.rs:96-122 | the checks are made in order: an invalid name first, then fewer than 1 CPU, then less than 256 MB of memory; no failure exactly when all three pass |
| Config.Validate | src/config.rs:96-122 | validation succeeds exactly when the name matches `[a-zA-Z0-9][a-zA-Z0-9._-]*`, there is at least 1 CPU and at least 256 MB of memory, and every failure is a validation error |
| Config.ValidHasHostname | src/config.rs:83-122 | a configuration that validates always has a non-empty hostname, the configured one or the VM name |
| Config.ValidNameIsComponent | src/config.rs:97-102 | a valid name holds no `/` and is neither `.` nor `..`, so the work directory named after it stays inside the data directory |
| Config.NameExamples | src/config.rs:160-186 | the five names the tests accept are valid, and the nine they reject are not |
| Qcow2.DivCeil | src/qcow2.rs:246 | the result is the least number of d-sized pieces that cover n |
| Qcow2.L1TableEntries | src/qcow2.rs:243-247 | the entry count, cast with `as u32`, always fits in a u32 |
| Qcow2.L1TableCovers | src/qcow2.rs:243-247 | below 2^61 bytes the L1 table has just enough 512 MiB entries to cover the virtual size |
| Qcow2.L1TableWraps | src/qcow2.rs:246 | at 2^61 + 1 bytes the `as u32` cast wraps the entry count round to 1 |
| Qcow2.L1TableExamples | src/qcow2.rs:321-331 | 1 GiB needs 2 entries and 100 GiB needs 200 |
| Qcow2.CeilEntries | src/qcow2.rs:244-246 | the rounded-up division by 512 MiB is the q that brackets the size |
| Qcow2.L1TableFitsItsCluster | src/qcow2.rs:206-211 | the L1 table fits in its one cluster exactly when the virtual size is at most 4 TiB |
| Qcow2.WriteBe | src/qcow2.rs:254-264 | the value is stored big-endian at the offset, reads back as itself, and no other byte changes |
| Qcow2.WriteBe16 | src/qcow2.rs:254-256 | a u16 is stored big-endian in two bytes, reads back as itself, and no other byte changes |
| Qcow2.WriteBe32 | src/qcow2.rs:258-260 | a u32 is stored big-endian in four bytes, reads back as itself, and no other byte changes |
| Qcow2.WriteBe64 | src/qcow2.rs:262-264 | a u64 is stored big-endian in eight bytes, reads back as itself, and no other byte changes |
| Qcow2.ZeroFieldsHold | src/qcow2.rs:195-204 | the fields left at zero (backing file, encryption, snapshots) hold in the zeroed buffer |
| Qcow2.HeaderGroupsOrdered | src/qcow2.rs:193-203 | the header writes come in increasing, non-overlapping order |
| Qcow2.HeaderGroupsApart | src/qcow2.rs:193-204 | no header write touches a field that is meant to stay zero |
| Qcow2.HeaderAssembled | src/qcow2.rs:189-204 | the written fields and the untouched zero fields together make the whole 72-byte header |
| Qcow2.WriteHeader | src/qcow2.rs:189-204 | the header holds the magic, version 2, no backing file, 16 cluster bits, the virtual size, no encryption, the L1 entry count and offset, the refcount table offset and cluster count, and no snapshots; nothing after byte 72 changes |
| Qcow2.WriteRefcountBlock | src/qcow2.rs:230-233 | the first four 16-bit refcounts of cluster 3 are 1, and no byte outside them changes |
| Qcow2.RefcountStep | src/qcow2.rs:231-233 | each pass of the loop sets one more refcount and keeps the earlier ones |
| Qcow2.TilesJoin | src/qcow2.rs:165-235 | two adjacent runs of writes that each cover their range cover the two ranges joined |
| Qcow2.HeaderTiles | src/qcow2.rs:173-187 | the header fields cover bytes 0 to 72 without gap or overlap |
| Qcow2.ImageTiles | src/qcow2.rs:165-235 | the image's runs cover all four clusters without gap or overlap |
| Qcow2.AfterHeaderTiles | src/qcow2.rs:206-233 | the runs after the header cover the rest of the image without gap or overlap |
| Qcow2.PaddingApart | src/qcow2.rs:166-233 | the zero padding never overlaps the header, the refcount table entry or the refcounts |
| Qcow2.HeaderApart | src/qcow2.rs:193-233 | the header and the refcount table entry never overlap the refcount block |
| Qcow2.TilesEnd | src/qcow2.rs:165-235 | every run of a covering lies inside the range it covers |
| Qcow2.ImageAssembled | src/qcow2.rs:165-235 | the header, the padding, the refcount table entry and the refcount block together make the whole image |
| Qcow2.BuildQcow2 | src/qcow2.rs:165-236 | the image is four 64 KiB clusters: the header for the virtual size, an all-zero L1 table, a refcount table with one entry pointing at cluster 3, and a refcount block marking the four clusters used |
| Qcow2.AfterTableEntry | src/qcow2.rs:220-222 | writing the refcount table entry keeps the header and the padding |
| Qcow2.AfterRefcountBlock | src/qcow2.rs:230-233 | writing the refcount block completes the image |
| Qcow2.CreateQcow2 | src/qcow2.rs:89-112 | the image is built exactly when the size parses, and a size that does not parse gives the parser's error |
| Qcow2.FieldReads | src/qcow2.rs:254-264 | a stored big-endian field reads back as its value |
| Qcow2.ZerosRead | src/qcow2.rs:166 | a stored run of zeros reads as zero at each byte |
| Qcow2.MagicBytes | src/qcow2.rs:66 | the magic number is stored as the bytes `QFI\xfb` |
| Qcow2.HeaderReadsFront | src/qcow2.rs:193-198 | a reader of the header finds the magic, version 2, no backing file, 16 cluster bits for 64 KiB clusters, and the virtual size |
| Qcow2.HeaderGroupsHold | src/qcow2.rs:189-204 | each group of header fields holds in an image that holds the header |
| Qcow2.HeaderReadsBack | src/qcow2.rs:199-204 | a reader finds no encryption, the L1 entry count and offset, the refcount table at cluster 2 spanning 1 cluster, and no snapshots |
| Qcow2.TablesRead | src/qcow2.rs:206-233 | a reader finds the L1 table all zero, the refcount table's one entry pointing at cluster 3 with zeros after it, and refcount 1 for clusters 0 to 3 with zeros after them |
| Qcow2.RefcountsRead | src/qcow2.rs:224-233 | each of the four clusters has refcount 1 |
| Qcow2.RefcountRead | src/qcow2.rs:231-233 | cluster i, for i below 4, has refcount 1 |
| Qcow2.ImageFactsAfterHeader | src/qcow2.rs:206-233 | after the header, the image's runs are the L1 table, the refcount table entry and its padding, the four refcounts and their padding, in that order |
| SizeParse.FindLetter | src/util.rs:16 | the index found is of the first ASCII letter, and there is none exactly when no character is an ASCII letter |
| SizeParse.ParseU64 | src/util.rs:21-23 | a number that parses fits in a u64 |
| SizeParse.Multiplier | src/util.rs:25-36 | every known suffix multiplies by at least 1 |
| SizeParse.Split | src/util.rs:16-19 | the number part is the longest letter-free prefix of the trimmed text, and the suffix is the rest upper-cased |
| SizeParse.ParseSize | src/util.rs:7-42 | an accepted size fits in a u64, and every rejection is a validation error |
| SizeParse.CheckedMul | src/util.rs:38-41 | the product is returned exactly when it fits in a u64, and otherwise a validation error |
| SizeParse.BlankIsRejected | src/util.rs:8-13 | a size of only whitespace, the empty one included, is rejected |
| SizeParse.SplitRendered | src/util.rs:16-19 | digits followed by letters split into the digits and the upper-cased letters |
| SizeParse.ParseRendered | src/util.rs:21-23 | the decimal rendering of any u64 parses back to it |
| SizeParse.ParseRenderedTooLarge | src/util.rs:21-23 | the decimal rendering of a number beyond u64 does not parse |
| SizeParse.RenderParseRoundTrip | src/util.rs:7-42 | a rendered number with a known unit, padded with whitespace, parses to the number times the unit when that fits in a u64, and is rejected otherwise |
| SizeParse.RenderedCore | src/util.rs:16-41 | an unpadded rendered number with a known unit parses to the checked product |
| SizeParse.UnknownSuffixIsRejected | src/util.rs:31-35 | a number with a suffix that is not K, M, G or T (with or without B, in any case) is rejected |
| Logging.YearOfEraSplit | src/logging.rs:241-243 | within a 400-year era the year index is 0 to 399 and the day of the year 0 to 365, and day 365 only falls in a leap year |
| Logging.MonthDay | src/logging.rs:244-246 | the month index gives a civil month 1 to 12 and a day within that month's length, 29 February only on the last day of a March-based leap year |
| Logging.LeapShift | src/logging.rs:242 | shifting a year by whole 400-year eras keeps whether it is a leap year |
| Logging.CivilFromDaysValid | src/logging.rs:231-247 | every day count since the epoch becomes a real calendar date: month 1 to 12 and a day that month has |
| Logging.EraDayValid | src/logging.rs:238-247 | every day of any era becomes a real calendar date |
| Logging.CivilFromDays | src/logging.rs:231-247 | a day on or after the epoch becomes a date with a month from 1 to 12, a day from 1 to 31 and a year after 1600 |
| Logging.UtcTimestamp | src/logging.rs:224-250 | a timestamp is at least the 19 characters of `YYYY-MM-DDTHH-MM-SS` long |
| Logging.TimeOfDay | src/logging.rs:232-235 | hours, minutes and seconds are in range and put back together give the time of day |
| Logging.PadWidth | src/logging.rs:249 | a zero-padded field below 10^w is exactly w digits and reads back as its value |
| Logging.Pow10 | src/logging.rs:249 | a power of ten is at least 1 |
| Logging.NatToStringLength | src/logging.rs:249 | a number below 10^w has at most w digits |
| Logging.Layout | src/logging.rs:249 | the six padded fields sit at fixed places in a 19-character `YYYY-MM-DDTHH-MM-SS` text |
| Logging.TimestampReadsBack | src/logging.rs:224-250 | for years below 10000 the timestamp reads back as the civil date and the time of day of the clock reading |
| Logging.EpochDate | src/logging.rs:238-247 | day 0 is 1 January 1970 |
| Logging.EpochTimestamp | src/logging.rs:224-250 | clock reading 0 gives `1970-01-01T00-00-00` |
| Logging.FormatEpoch | src/logging.rs:249 | the epoch's date and time format as `1970-01-01T00-00-00` |
| Logging.Pad1970 | src/logging.rs:249 | the year 1970 pads to four digits unchanged |
| Logging.PadSmall | src/logging.rs:249 | a one-digit field pads to a leading zero and the digit |
| Logging.NoUnderscoreJoin | src/logging.rs:190-191 | joining two texts without `_` gives a text without `_` |
| Logging.TimestampHasNoUnderscore | src/logging.rs:249 | a timestamp never holds `_`, so the first `_` of a log name ends it |
| Logging.FinishRenames | src/logging.rs:113-125 | finishing a running log swaps `_running.log` for `_ok.log` or `_failed.log` and keeps the rest of the name |
| Logging.RunningName | src/logging.rs:101-102 | a running log name starts with the timestamp and `_` and ends in `_running.log` |
| Logging.FinishedName | src/logging.rs:113-125 | a name without the running marker is left as it is |
| Logging.Matching | src/logging.rs:136-147 | the names considered are exactly the listed finished logs of the script |
| Logging.RunningNeverRotated | src/logging.rs:144 | a log still running is never a rotation candidate |
| Logging.RotationKeepsNewest | src/logging.rs:131-157 | rotation removes all but the `keep` greatest names, removes nothing when there are at most `keep`, every removed name sorts before every kept one, and only finished logs of the script are removed |
| Logging.RotationPartitions | src/logging.rs:150-156 | the removed and the kept names split the sorted candidates, and exactly `keep` survive when there are more |
| Logging.RotationOrdered | src/logging.rs:150-156 | every removed name sorts at or before every kept name |
| Logging.SplitOrdered | src/logging.rs:150-153 | any split of a sorted list puts no later name before an earlier one |
| Logging.DoomedAreFinished | src/logging.rs:139-156 | every removed name was listed, belongs to the script, and is not a running log |
| Logging.Doomed | src/logging.rs:150-156 | all but the `keep` newest matching logs are doomed, and none when there are at most `keep` |
| Logging.SplitStem | src/logging.rs:188-197 | a stem with two distinct underscores splits at the first and the last one, the outer parts holding none; a stem with fewer is not a log |
| Logging.ParseLogName | src/logging.rs:177-204 | a parsed name is a finished `.log` file made of its timestamp, script and status |
| Logging.FinishedNameParses | src/logging.rs:99-125 | a log created at any clock reading and then finished parses back into its timestamp, script and status |
| Logging.ParseRoundTrip | src/logging.rs:177-204 | a name built from a timestamp, a script (underscores allowed) and `ok` or `failed` parses back into those three |
| Logging.FinishedSuffix | src/logging.rs:182-187 | a finished name ends in `.log` but not in `_running.log` |
| Logging.StemSplits | src/logging.rs:188-197 | a stem whose outer parts hold no `_` splits back into its three parts |
| Logging.StemUnderscores | src/logging.rs:190-191 | the first `_` ends the timestamp and the last begins the status |
| Logging.SplitStemAt | src/logging.rs:190-197 | distinct first and last underscores cut the stem into timestamp, script and status |
| Logging.ThreeParts | src/logging.rs:195-197 | the three slices of a joined stem are its parts |
| Logging.FirstUnderscore | src/logging.rs:190 | the first `_` after a part without one is right after that part |
| Logging.LastUnderscore | src/logging.rs:191 | the last `_` before a part without one is right before that part |
| Logging.ParseAll | src/logging.rs:175-205 | the entries are exactly the parses of the listed names |
| Logging.ByTimestampTotal | src/logging.rs:207 | ordering by timestamp is a total preorder |
| Logging.ListScriptLogsSorted | src/logging.rs:170-209 | the listing is sorted by timestamp and holds exactly the parsable logs |
| Logging.ListScriptLogs | src/logging.rs:170-209 | each entry listed is a log of the directory whose name parses to that entry |
| Logging.LastWanted | src/logging.rs:214-217 | the name found is of a wanted entry with none wanted after it, and none is found only when no entry is wanted |
| Logging.LatestIsNewest | src/logging.rs:212-218 | the log found is wanted (any, or failed only) and no wanted log has a later timestamp; none is found only when no log is wanted |
| Logging.LatestScriptLog | src/logging.rs:212-218 | the log returned is a finished log of the directory, a failed one when only failed logs are wanted |
| Logging.LogDir.constructor | src/logging.rs:170-173 | the directory starts with the given names |
| Logging.LogDir.CreateScriptLog | src/logging.rs:99-106 | when creating the directory and the file both succeed, the new running log is named from the timestamp and the script and is added to the directory; when either fails there is no log and the directory is unchanged |
| Logging.LogDir.Finish | src/logging.rs:113-125 | a present log is renamed to its finished name; a missing one leaves the directory as it was |
| Logging.LogDir.RotateLogs | src/logging.rs:131-157 | exactly the doomed names whose removal succeeds are removed, a failed removal leaves its name in place, and nothing changes when the directory cannot be read |
| Watch.WatchMounts | src/watch.rs:27-31 | exactly the mounts with inotify on and not read-only are watched, as (source, target) pairs |
| Watch.PathLenPrefix | src/watch.rs:58 | a path's length in characters grows by at least one per component beyond a prefix |
| Watch.PrefixesComparable | src/watch.rs:234-243 | two prefixes of one path are prefixes of each other |
| Watch.LongerFirstTotal | src/watch.rs:58 | ordering by source length, longest first, is a total preorder |
| Watch.PathMap | src/watch.rs:57-58 | the path map holds the watched mounts, no more and no fewer, sorted longest source first |
| Watch.FirstMatch | src/watch.rs:235-236 | the entry found is the first whose source is a prefix of the host path, and none is found only when no entry's source is |
| Watch.TranslatePath | src/watch.rs:234-245 | a path is translated exactly when some source is a prefix of it; the first such entry gives its target, joined with the rest of the path unless nothing is left |
| Watch.LongestPrefixWins | src/watch.rs:56-58 | in the sorted map, the entry a path translates by has the longest matching source |
| Watch.TranslateExamples | src/watch.rs:365-400 | a file below the mount, the mount root, an unrelated path and a nested mount translate as the source's own examples say |
| Watch.ShouldForwardKinds | src/watch.rs:164-178 | exactly creations, data writes and renames are forwarded; metadata changes, reads and removals are not |
| Watch.ShouldForward | src/watch.rs:164-178 | the metadata change a guest-side `touch` feeds back is never forwarded, and neither are reads or removals |
| Watch.PrependEmpty | src/watch.rs:357-359 | prepending nothing to a read word leaves it as it was |
| Watch.ConsPrepend | src/watch.rs:357-359 | prepending one character and then a text is prepending both |
| Watch.EscapedQuoteReads | src/watch.rs:358 | inside quotes, `'\''` reads as one literal quote and stays quoted |
| Watch.QuotedBodyReads | src/watch.rs:358 | the escaped body of a quoted word reads back as the original text |
| Watch.ShellEscapeReadsBack | src/watch.rs:356-359 | the shell reads an escaped text, followed by a delimiter or the end, back as exactly that text, whatever quotes it holds |
| Watch.ShellEscape | src/watch.rs:356-359 | the escaped text is wrapped in single quotes |
| Strings.ReplaceCharAbsent | src/watch.rs:358 | replacing a character that does not occur changes nothing |
| Watch.ShellEscapePlain | src/watch.rs:402-405 | a text without quotes is escaped by wrapping it in single quotes |
| Watch.ShellEscapeOneQuote | src/watch.rs:407-410 | a text with one quote gets it written as `'\''` inside the wrapping quotes |
| Watch.QuoteReplaced | src/watch.rs:358 | a leading quote is replaced and the rest is escaped in turn |
| Watch.KeysSnoc | src/watch.rs:305-306 | the guest paths of a list with one more touch gain that touch's guest path |
| Watch.DedupDistinct | src/watch.rs:305-320 | deduplication keeps every guest path and leaves each one exactly once |
| Watch.Dedup | src/watch.rs:313-317 | deduplication only drops candidates: every one kept was a candidate |
| Watch.Candidates | src/watch.rs:308-318 | a batch with no forwarded event yields no candidate |
| Watch.DedupKeepsFirst | src/watch.rs:313-317 | the first touch of each guest path survives deduplication |
| Watch.DedupSnoc | src/watch.rs:313-317 | one more candidate is kept exactly when its guest path is new |
| Watch.PathCandidatesSnoc | src/watch.rs:312-318 | one more path adds its translation, or nothing when it does not translate |
| Watch.CandidatesSnoc | src/watch.rs:308-320 | one more event adds its paths' translations when its kind is forwarded, and nothing otherwise |
| Watch.AppendCandidate | src/watch.rs:312-318 | the candidates after earlier events grow by the translation of the next path |
| Watch.AddEventTouches | src/watch.rs:312-319 | after one event's paths, the touches are the deduplicated candidates so far and the seen set is their guest paths |
| Watch.CollectTouches | src/watch.rs:302-320 | the touches are the translations of the forwarded events' paths, each guest path once, with its first host path |
| Watch.BatchCommand | src/watch.rs:322-332 | there is no command exactly when there are no touches |
| Watch.TouchCommand | src/watch.rs:330 | each command is `touch -d @<epoch> ` followed by the escaped guest path |
| Watch.TouchArgumentReadsBack | src/watch.rs:327-332 | in the joined command each touch starts with `touch -d @<epoch> ` and its argument reads back as the guest path, ended by the next `;` or the end |
| Registry.ByPrefix | src/registry.rs:157-173 | the result holds exactly the images whose label starts (or, when not keeping, does not start) with the prefix |
| Registry.ByPrefixPartition | src/registry.rs:157-173 | the Fedora and the non-Fedora presets together are all the presets, none lost or doubled |
| Registry.ImageLeTotal | src/registry.rs:179-187 | the `all_images` comparator is a total preorder, so the stable sort is well defined |
| Sorting.Sort | src/registry.rs:179-187 | the stable sort used for image lists and log listings returns a permutation of its input |
| Registry.UbuntuFirst | src/registry.rs:178-187 | in the sorted list every Ubuntu image precedes every other, and labels ascend within each group |
| Registry.FedoraFallback | src/registry.rs:157-176 | with no live Fedora images the list is the presets; with some, it is the non-Fedora presets plus the live images, and a built-in Fedora preset is offered only when it is also live |
| Registry.Candidates | src/registry.rs:157-176 | every candidate is a preset or a live Fedora image, and when live images came no Fedora preset is among them |
| Registry.ImagesFrom | src/registry.rs:157-187 | sorting keeps exactly the candidates |
| Registry.AllImages | src/registry.rs:139-190 | every live Fedora image fetched is listed |
| Registry.Matching | src/registry.rs:199-202 | the filter keeps no more images than it is given |
| Registry.MatchingMembers | src/registry.rs:198-202 | an image is kept exactly when its lower-cased label contains the lower-cased query |
| Registry.MatchingAppend | src/registry.rs:199-202 | filtering a joined list is filtering each part, so the kept images keep their order |
| Registry.MatchingCons | src/registry.rs:199-202 | the first image's fate is decided on its own, ahead of the rest |
| Registry.FilterImages | src/registry.rs:194-205 | no query or an empty one returns every image in order; otherwise exactly the images whose lower-cased label contains the lower-cased query |
| Registry.LinesRoundTrip | src/registry.rs:228-262 | splitting into lines, joining with newlines and restoring a trailing newline gives the text back |
| Registry.RoundTripCons | src/registry.rs:259-262 | the round trip survives one more leading line |
| Registry.LinesStep | src/registry.rs:228 | a text with a newline splits into its first line and the lines of the rest |
| Registry.JoinCons | src/registry.rs:259 | joining a line before others puts one separator between |
| Registry.EndsWithSplit | src/registry.rs:260 | a text ends in a newline exactly when its last part does |
| Registry.KindOf | src/registry.rs:233-246 | a line counts as a base key exactly when its trimmed text starts with `base` and the key before its first `=` trims to `base` |
| Registry.Kinds | src/registry.rs:232-233 | every line gets a kind |
| Registry.KindsAt | src/registry.rs:232-233 | the kind at each index is the kind of that line |
| Registry.EditedLines | src/registry.rs:250-257 | the base line becomes `base = "<url>"`, a comment right above becomes `# <label>`, and every other line is kept |
| Registry.ScanFrom | src/registry.rs:232-247 | an index found is a line of the file |
| Registry.ScanFromFirst | src/registry.rs:232-247 | the scan stops at the first base key inside `[image]` and passes over no earlier one |
| Registry.ImageBaseLine | src/registry.rs:229-247 | an index found is a line of the file |
| Registry.ImageBaseLineIsFirst | src/registry.rs:229-247 | the line found is a base key inside `[image]` and no earlier line is; none is found only when no line is |
| Registry.ClassifyLine | src/registry.rs:233-246 | the method's classification is the line's kind |
| Registry.FindImageBase | src/registry.rs:229-247 | the loop with its section flag finds the first base key inside `[image]` |
| Registry.EditBaseLine | src/registry.rs:250-257 | the lines after the in-place edits are the edited lines |
| Registry.UpdateConfigBase | src/registry.rs:209-285 | a missing file gives Ok and no write; an unreadable file a load error; no base line Ok and no write; otherwise the edited text is written, or a write error is returned |
| Registry.JoinEndsWithLast | src/registry.rs:259 | a joined text ends with its last part |
| Registry.LinesHaveNoNewline | src/registry.rs:228 | no line holds a newline |
| Registry.LastLineNotEmpty | src/registry.rs:228 | a text without a trailing newline ends in a non-empty line |
| Registry.TrailingNewlineKept | src/registry.rs:259-262 | the written file ends in a newline exactly when the original did |

## Left out

- Concurrency. The event loop's `tokio::select!` over the command channel and the `FuturesUnordered` workers becomes one sequence of arrivals. Each arrival is a client command or the completion of a chosen pending worker. The model does not cover interleavings beyond the order that sequence fixes.
- Process execution. The guest's `run_script` and `run_provision_script` and the agent's `exec` do not run anything in the model: a script's output lines and exit status come from an oracle. Spawn failures map to exit code -1, as in the source.
- Hypervisor calls. Domain lookup, create, define, undefine, shutdown, destroy and `is_active` are outcome flags or fields of `Libvirt.Host`; an `is_active` error counts as not running, as `is_running` does. Network setup and DHCP reservations (`ensure_networks`, `add_dhcp_reservation`) are not part of this model.
- The rest of `up`, and `down`, `destroy`, `status`, `ssh`, `ssh_config` and `ensure_ssh_keypair` in src/backend/libvirt.rs: hypervisor and process plumbing around the modelled steps. `down` repeats `shutdown_domain`'s ACPI-then-force sequence against a 30-second deadline; it is not modelled separately.
- Clocks and sleeps. `wait_for_agent` reads the clock through a parameter that must advance across each sleep. `utc_timestamp` is a function of the seconds since the epoch. The inotify bridge's 100 ms debounce and its retry sleeps are not modelled.
- Network and socket I/O: image downloads, the Fedora release fetch (`fetch_fedora_images`, whose result is a parameter of `Registry.ImagesFrom`), vsock and TCP byte copying after the port header, russh connect and exec, and the inotify watcher itself.
- The inotify bridge's SSH reconnect-and-retry after a failed `touch` batch, `wait_for_ip` and `host_mtime_epoch`. The file's mtime is a parameter of `Watch.BatchCommand`.
- Serialisers. The XML, YAML and TOML text produced by the serialiser libraries is not modelled. `DomainXml.XmlHasChanged` compares the serialised text, which is a parameter.
- Functions other modules provide: `generate_mac`, `SeedConfig`, `resolve_drives`/`resolve_fs`, `build_drive_script` and `provisioned_marker` are parameters.
- `detect_state`'s file-system and hypervisor reads are the fields of `VmState.Observation`.
- Terminal UI and prompts: `init::run` with its file-exists check and prompts (src/init.rs:53-87), `run_wizard` and the `prompt_*` functions, `detect_backend`, the `search` command's selection prompt and printing, `map_inquire_err`, progress spinners, and the interactive and plain observers.
- `json_transition` formats states and events through Rust's `Debug` output, which the model does not have. `JsonObserver.JsonEffect` covers the effect lines.
- `DeferredFileWriter`, `ScriptLogger::write_line` and `start_log_subscription`: tracing and logging plumbing.
- `load_config` (TOML parsing), `libvirt_uri` and `cache_dir` (an environment lookup). Validation is modelled on the parsed configuration.
- Registry.FilterImages: lower-cases ASCII letters only. Rust's `to_lowercase` also maps other letters.
- Libvirt.Accepts: lower-cases ASCII letters only, where src/backend/libvirt.rs:544-567 uses `to_lowercase`. MAC addresses are hexadecimal text, so the two agree on them.
- Libvirt.SelectIface: lower-cases through Libvirt.Accepts, with the same ASCII-only difference.
- Watch.PathMap: sorts by the path's length in characters, where src/watch.rs:58 sorts by the byte length of the OS string. The sources that match one guest path are prefixes of each other, so translation agrees; only the relative order of unrelated non-ASCII sources can differ.
- JsonObserver.DataReadsBack: reads back through a lenient string reader that accepts raw control characters. src/observer/json.rs:35 and :46 escape only `\` and `"`, so a log line holding a tab or an ANSI escape is emitted unescaped, and the line is not valid JSON under RFC 8259 section 7.
- Registry.MatchingMembers: states membership. Order preservation is stated by Registry.MatchingAppend.
- Qcow2.CreateQcow2: errors from creating the directory and writing the file are not modelled; the image bytes are returned instead of written.
- DomainXml.GenerateDomain: `memory_mb * 1024` is computed on unbounded integers. The `u64` overflow for sizes beyond 2^54 MiB is not modelled.
- Iso9660.BuildIso: requires that every directory record's length fits its one length byte and that the root directory fits sector 20. The source checks neither, and a larger directory would spill into sector 21 or truncate the length byte. The source's assertion on the volume identifier (ASCII, at most 32 bytes) is a precondition here.
- Paths.DrivePath: a drive name holding '/' nests the image in sub-directories of the work directory, and `..` pieces move it out of the work directory; src/paths.rs:39-41 does not reject such names. The model records where such a path points, as `Paths.DriveNameNests` shows, but does not resolve `..`.
- Paths.WorkDir: the work directory's name `<id>-<name>` is held as one component. The VM name cannot hold '/', since src/config.rs:96-101 accepts only `[a-zA-Z0-9][a-zA-Z0-9._-]*`. The config id is computed outside this model, and the model assumes it holds no '/'.
- Init.MountsHintIff: requires the image comment not to be `[[mounts]]` itself, since the hint line would then also appear in the image block.
- Init.GenerateToml: builds the list of lines and joins them with newlines, rather than appending to one `String`. The text is the same.
- Init: the wizard's `u32` and `u64` bounds on cpus and memory are not enforced; the values are unbounded naturals.
- SizeParse.ParseSize: `str::trim` is modelled with the Unicode White_Space set. The text of the error messages is not modelled, only their kind (`Validation`).
- Error messages and hints in general: every `RumError` is modelled by its variant and the fields the model reads.
